/** What becomes of a submitted operation: it waits in the pool, in the order of
    submission, until it is on the chain, and a node that was offered it never loses
    it. */
module Mempool {
  import opened Sequences
  import opened Ledger
  import opened Model
  import opened NetworkSpec
  import opened Quorum
  import opened EngineSpec
  import opened EngineInvariants
  import opened Progress
  import opened Agreement

  /** What an input asks the engine to have executed one day. */
  function Offered(input: Input): seq<LedgerOp> {
    match input
    case LocalOp(op) => [op]
    case Receive(Op(op)) => [op]
    case _ => []
  }

  ghost predicate Before<T(!new)>(s: seq<T>, x: T, y: T) {
    exists i, j :: 0 <= i < j < |s| && s[i] == x && s[j] == y
  }

  ghost predicate InOrderOf<T(!new)>(r: seq<T>, s: seq<T>) {
    forall i, j :: 0 <= i < j < |r| ==> Before(s, r[i], r[j])
  }

  /** The operation waits at the engine, or is on its chain. */
  predicate Safe(e: Engine, op: LedgerOp) {
    op in e.mempool || op in OpsOf(e.chain)
  }

  /** Nothing of the pool is lost, nothing is made up, and the order is kept. */
  ghost predicate Retains(pool: seq<LedgerOp>, r: Engine) {
    && (forall op :: op in pool ==> Safe(r, op))
    && (forall op :: op in r.mempool ==> op in pool)
    && InOrderOf(r.mempool, pool)
  }

  // -------------------------------------------------------------- single steps

  lemma {:induction false} MinusInOrder<T(!new)>(s: seq<T>, drop: set<T>)
    ensures InOrderOf(Minus(s, drop), s)
  {
    if s != [] {
      var init, last := s[..|s|-1], s[|s|-1];
      MinusInOrder(init, drop);
      MinusProperties(init, drop);
      var r := Minus(s, drop);
      forall i, j | 0 <= i < j < |r| ensures Before(s, r[i], r[j]) {
        if j < |Minus(init, drop)| {
          var x, y :| 0 <= x < y < |init| && init[x] == r[i] && init[y] == r[j];
          assert s[x] == r[i] && s[y] == r[j];
        } else {
          assert r[i] in init;
          var x :| 0 <= x < |init| && init[x] == r[i];
          assert s[x] == r[i] && s[|s|-1] == r[j];
        }
      }
    }
  }

  lemma OrderOfItself<T(!new)>(s: seq<T>)
    ensures InOrderOf(s, s)
  {}

  lemma OrderOn<T(!new)>(a: seq<T>, b: seq<T>, c: seq<T>)
    requires InOrderOf(a, b) && InOrderOf(b, c)
    ensures InOrderOf(a, c)
  {
    forall i, j | 0 <= i < j < |a| ensures Before(c, a[i], a[j]) {
      var x, y :| 0 <= x < y < |b| && b[x] == a[i] && b[y] == a[j];
      assert Before(c, b[x], b[y]);
    }
  }

  /** One block further, or neither chain nor pool touched. */
  ghost predicate Moves(e: Engine, r: Engine) {
    || (r.mempool == e.mempool && r.chain == e.chain)
    || exists block :: Executed(e, r, block)
  }

  ghost predicate Executed(e: Engine, r: Engine, block: OpBlock) {
    r.chain == e.chain + [block] && r.mempool == Minus(e.mempool, SetOf(block.ops))
  }

  lemma MoveRetains(pool: seq<LedgerOp>, e: Engine, r: Engine)
    requires Retains(pool, e) && Moves(e, r)
    ensures Retains(pool, r) && (PoolOk(e) ==> PoolOk(r))
  {
    hide InOrderOf, Minus, OpsOf;
    if r.mempool != e.mempool || r.chain != e.chain {
      var block :| Executed(e, r, block);
      OpsOfAppend(e.chain, block);
      MinusProperties(e.mempool, SetOf(block.ops));
      MinusInOrder(e.mempool, SetOf(block.ops));
      OrderOn(r.mempool, e.mempool, pool);
    }
  }

  lemma AppendMoves(e: Engine, block: OpBlock)
    ensures Moves(e, AppendAndApply(e, block))
  {
    hide ApplyAll, Minus;
    if Appendable(e, block) {
      assert Executed(e, AppendAndApply(e, block), block);
    }
  }

  lemma CommitMoves(order: Order, e: Engine, height: nat, hash: Digest)
    ensures Moves(e, MaybeCommit(order, e, height, hash).engine)
  {
    hide AppendAndApply, Certificate;
    if hash in ProposalsAt(e, height) {
      AppendMoves(e, ProposalsAt(e, height)[hash].(votes := Certificate(order, VotesFor(e, height, hash))));
    }
  }

  lemma MovesFrom(e: Engine, m: Engine, r: Engine)
    requires m.mempool == e.mempool && m.chain == e.chain && Moves(m, r)
    ensures Moves(e, r)
  {
    if r.mempool != e.mempool || r.chain != e.chain {
      var block :| Executed(m, r, block);
      assert Executed(e, r, block);
    }
  }

  lemma VoteAndSealMoves(c: Crypto, order: Order, e: Engine, height: nat, hash: Digest)
    ensures Moves(e, VoteAndSeal(c, order, e, height, hash).engine)
  {
    hide MaybeCommit, RecordVote, Moves;
    CastRecords(c, e, height, hash);
    var cast := CastVote(c, e, height, hash).engine;
    CommitMoves(order, cast, height, hash);
    MovesFrom(e, cast, MaybeCommit(order, cast, height, hash).engine);
  }

  lemma StoreSame(e: Engine, block: OpBlock)
    ensures StoreProposal(e, block).mempool == e.mempool && StoreProposal(e, block).chain == e.chain
  {}

  lemma ProposeMoves(c: Crypto, order: Order, e: Engine)
    ensures Moves(e, TryPropose(c, order, e).engine)
  {
    hide VoteAndSeal, StoreProposal, ProposerFor;
    var block := RoundBlock(c, e);
    StoreSame(e, block);
    VoteAndSealMoves(c, order, StoreProposal(e, block), e.NextIndex(), block.hash);
    MovesFrom(e, StoreProposal(e, block),
      VoteAndSeal(c, order, StoreProposal(e, block), e.NextIndex(), block.hash).engine);
  }

  lemma OnProposeMoves(c: Crypto, order: Order, e: Engine, block: OpBlock)
    ensures Moves(e, OnPropose(c, order, e, block).engine)
  {
    hide VoteAndSeal, StoreProposal, ProposerFor;
    var e1 := AddValidator(e, block.proposer);
    StoreSame(e1, block);
    VoteAndSealMoves(c, order, StoreProposal(e1, block), block.index, block.hash);
    MovesFrom(e, StoreProposal(e1, block),
      VoteAndSeal(c, order, StoreProposal(e1, block), block.index, block.hash).engine);
  }

  lemma OnVoteMoves(c: Crypto, order: Order, e: Engine, height: nat, hash: Digest, voter: Key, signature: Signature)
    ensures Moves(e, OnVote(c, order, e, height, hash, voter, signature).engine)
  {
    hide MaybeCommit, RecordVote;
    var e1 := AddValidator(e, voter);
    RecordedVotes(e1, height, hash, voter, signature);
    var e2 := RecordVote(e1, height, hash, voter, signature);
    CommitMoves(order, e2, height, hash);
    MovesFrom(e, e2, MaybeCommit(order, e2, height, hash).engine);
  }

  lemma OnCommittedMoves(c: Crypto, e: Engine, block: OpBlock)
    ensures Moves(e, OnCommitted(c, e, block).engine)
  {
    hide AppendAndApply, VerifyCertificate;
    var e1 := AddValidator(e, block.proposer);
    AppendMoves(e1, block);
    MovesFrom(e, e1, AppendAndApply(e1, block));
  }

  lemma {:induction false} SyncEachRetains(c: Crypto, pool: seq<LedgerOp>, e: Engine, blocks: seq<OpBlock>)
    requires Retains(pool, e)
    ensures var r := SyncEach(c, e, blocks).engine;
      Retains(pool, r) && (PoolOk(e) ==> PoolOk(r))
  {
    hide AppendAndApply, VerifyCertificate, Retains, PoolOk;
    if blocks != [] {
      var init, last := blocks[..|blocks|-1], blocks[|blocks|-1];
      SyncEachRetains(c, pool, e, init);
      var m := SyncEach(c, e, init).engine;
      AppendMoves(m, last);
      MoveRetains(pool, m, AppendAndApply(m, last));
    }
  }

  lemma {:induction false} RestoreRetains(pool: seq<LedgerOp>, e: Engine, blocks: seq<OpBlock>)
    requires Retains(pool, e)
    ensures var r := RestoreChain(e, blocks); Retains(pool, r) && (PoolOk(e) ==> PoolOk(r))
  {
    hide AppendAndApply, Retains, PoolOk, Moves;
    if blocks != [] {
      var init, last := blocks[..|blocks|-1], blocks[|blocks|-1];
      RestoreRetains(pool, e, init);
      var m := RestoreChain(e, init);
      var noted := NoteValidators(m, last.Mentioned());
      AppendMoves(noted, last);
      MovesFrom(m, noted, AppendAndApply(noted, last));
      MoveRetains(pool, m, AppendAndApply(noted, last));
    }
  }

  lemma AdoptRetains(c: Crypto, e: Engine, blocks: seq<OpBlock>)
    ensures var r := TryAdopt(c, e, blocks).engine;
      Retains(e.mempool, r) && (PoolOk(e) ==> PoolOk(r))
  {
    hide Minus, OpsOf, Replay, MentionedIn, AllCertified, AllHashed, Chained, InOrderOf;
    OrderOfItself(e.mempool);
    MinusProperties(e.mempool, SetOf(OpsOf(blocks)));
    MinusInOrder(e.mempool, SetOf(OpsOf(blocks)));
  }

  lemma Itself(e: Engine)
    ensures Retains(e.mempool, e)
  {
    OrderOfItself(e.mempool);
  }

  lemma SyncRetains(c: Crypto, e: Engine, blocks: seq<OpBlock>)
    ensures var r := ApplySyncBlocks(c, e, blocks).engine;
      Retains(e.mempool, r) && (PoolOk(e) ==> PoolOk(r))
  {
    hide SortBy, TryAdopt, SyncEach, Retains, PoolOk;
    Itself(e);
    AdoptRetains(c, e, SortBy(blocks, IndexOf));
    SyncEachRetains(c, e.mempool, e, SortBy(blocks, IndexOf));
  }

  lemma OfferRetains(e: Engine, op: LedgerOp)
    ensures var r := AddToMempool(e, op);
      && Retains(e.mempool + [op], r) && (PoolOk(e) ==> PoolOk(r))
  {
    hide OpsOf;
    var pool := e.mempool + [op];
    assert pool[|e.mempool|] == op;
    forall x | x in pool ensures Safe(AddToMempool(e, op), x) {
      assert x in e.mempool || x == op;
    }
    forall i, j | 0 <= i < j < |e.mempool| ensures Before(pool, e.mempool[i], e.mempool[j]) {
      assert pool[i] == e.mempool[i] && pool[j] == e.mempool[j];
    }
    OrderOfItself(pool);
  }

  // ------------------------------------------------------------------ every step

  lemma ReceiveRetains(c: Crypto, order: Order, e: Engine, msg: Message)
    ensures var r := React(c, order, e, Receive(msg)).engine;
      Retains(e.mempool + Offered(Receive(msg)), r) && (PoolOk(e) ==> PoolOk(r))
  {
    hide OnPropose, OnVote, OnCommitted, ApplySyncBlocks, BlocksFrom, AddToMempool, Retains, PoolOk;
    Itself(e);
    assert e.mempool + [] == e.mempool;
    match msg {
      case Op(op) => OfferRetains(e, op);
      case Propose(block) =>
        OnProposeMoves(c, order, e, block);
        MoveRetains(e.mempool, e, OnPropose(c, order, e, block).engine);
      case Vote(height, hash, voter, signature) =>
        OnVoteMoves(c, order, e, height, hash, voter, signature);
        MoveRetains(e.mempool, e, OnVote(c, order, e, height, hash, voter, signature).engine);
      case Committed(block) =>
        OnCommittedMoves(c, e, block);
        MoveRetains(e.mempool, e, OnCommitted(c, e, block).engine);
      case SyncRequest(_) =>
      case SyncResponse(blocks) => SyncRetains(c, e, blocks);
    }
  }

  /** Whatever an engine is given, an operation in its pool, or just offered to it, is
      afterwards in the pool or on the chain, and the pool keeps its order. */
  lemma NothingPendingIsLost(c: Crypto, order: Order, e: Engine, input: Input)
    ensures var r := React(c, order, e, input).engine;
      && Retains(e.mempool + Offered(input), r)
      && (PoolOk(e) ==> PoolOk(r))
  {
    hide OnMessage, TryPropose, RestoreChain, AddToMempool, Retains, PoolOk;
    Itself(e);
    assert e.mempool + [] == e.mempool;
    match input {
      case LocalOp(op) => OfferRetains(e, op);
      case ProposeNow =>
        ProposeMoves(c, order, e);
        MoveRetains(e.mempool, e, TryPropose(c, order, e).engine);
      case Receive(msg) => ReceiveRetains(c, order, e, msg);
      case Connect(key) => MoveRetains(e.mempool, e, AddValidator(e, key));
      case Disconnect(key) => MoveRetains(e.mempool, e, MarkInactive(e, key));
      case Restore(blocks) => RestoreRetains(e.mempool, e, blocks);
    }
  }

  /** So an operation pends exactly if it did, or was just offered, and is not on the
      chain: where the chain may have grown, or given way to a longer one. */
  lemma PendingExactly(c: Crypto, order: Order, e: Engine, input: Input, op: LedgerOp)
    requires PoolOk(e)
    ensures var r := React(c, order, e, input).engine;
      && (op in r.mempool <==> (op in e.mempool || op in Offered(input)) && op !in OpsOf(r.chain))
      && Distinct(r.mempool) && InOrderOf(r.mempool, e.mempool + Offered(input))
  {
    hide React, OpsOf, InOrderOf;
    NothingPendingIsLost(c, order, e, input);
    assert op in e.mempool + Offered(input) <==> op in e.mempool || op in Offered(input);
  }

  /** A committed block takes its own operations out of the pool and no other. */
  lemma BlockTakesItsOwn(c: Crypto, order: Order, e: Engine, input: Input, block: OpBlock, op: LedgerOp)
    requires PoolOk(e) && React(c, order, e, input).engine.chain == e.chain + [block]
    ensures var r := React(c, order, e, input).engine;
      && (op in r.mempool <==> op in e.mempool && op !in block.ops)
      && Distinct(r.mempool) && InOrderOf(r.mempool, e.mempool)
  {
    hide React, OpsOf, InOrderOf;
    PendingExactly(c, order, e, input, op);
    OpsOfAppend(e.chain, block);
    OffersStayPut(c, order, e, input, block);
    assert e.mempool + [] == e.mempool;
  }

  lemma OffersStayPut(c: Crypto, order: Order, e: Engine, input: Input, block: OpBlock)
    requires React(c, order, e, input).engine.chain == e.chain + [block]
    ensures Offered(input) == []
  {
    assert |e.chain + [block]| == |e.chain| + 1;
  }

  /** Gossip adds what the engine does not know yet, behind everything else; nothing else
      changes and nothing is sent on. Who submits to the engine itself gets it announced
      exactly if it was new. */
  lemma OffersExactly(c: Crypto, order: Order, e: Engine, op: LedgerOp)
    ensures var heard := React(c, order, e, Receive(Op(op))); var told := React(c, order, e, LocalOp(op));
      && Safe(heard.engine, op)
      && heard.engine == told.engine == e.(mempool := heard.engine.mempool)
      && heard.engine.mempool == (if Safe(e, op) then e.mempool else e.mempool + [op])
      && heard.out == [] && told.out == (if Safe(e, op) then [] else [Op(op)])
  {
    hide OpsOf;
    assert |e.mempool + [op]| == |e.mempool| + 1;
  }

  // ------------------------------------------------------------------- every run

  lemma {:induction false} OpsOfPrefix(x: seq<OpBlock>, y: seq<OpBlock>)
    requires Headers(x) <= Headers(y)
    ensures OpsOf(x) <= OpsOf(y)
  {
    hide OpsOf;
    assert |x| == |Headers(x)| && |y| == |Headers(y)|;
    if |x| == |y| {
      assert Headers(x) == Headers(y);
      OpsFromHeaders(x, y);
    } else {
      var k := |y| - 1;
      assert Headers(y[..k]) == Headers(y)[..k];
      assert y == y[..k] + [y[k]];
      OpsOfPrefix(x, y[..k]);
      OpsOfAppend(y[..k], y[k]);
    }
  }

  /** Over every legal run, what once waits at a correct node or is on its chain stays in
      one of the two. */
  lemma {:induction false} SafeForGood(s: Setup, before: seq<Action>, after: seq<Action>, k: Key, op: LedgerOp)
    requires Assumptions(s) && LegalRun(s, before + after) && k in s.correct
    requires k in After(s, before) && Safe(After(s, before)[k].engine, op)
    ensures k in After(s, before + after) && Safe(After(s, before + after)[k].engine, op)
  {
    hide Assumptions, Start, React, Legal, OpsOf;
    if after == [] {
      assert before + after == before;
    } else {
      var i := |after| - 1;
      var run, a := before + after[..i], after[i];
      assert (before + after)[..|before + after|-1] == run;
      SafeForGood(s, before, after[..i], k, op);
      var e := After(s, run)[k].engine;
      assert run + [a] == before + after;
      Finality(s, run, [a], k, k);
      OpsOfPrefix(e.chain, After(s, before + after)[k].engine.chain);
      if a.who == k {
        NothingPendingIsLost(s.c, a.order, e, a.input);
        assert op in e.mempool ==> op in e.mempool + Offered(a.input);
      }
    }
  }

  /** Only what was submitted to a node itself does it announce. */
  lemma OnlyOwnAnnounced(c: Crypto, order: Order, e: Engine, input: Input, op: LedgerOp)
    requires Op(op) in React(c, order, e, input).out
    ensures input == LocalOp(op) && !Safe(e, op)
  {
    hide AppendAndApply, RecordVote, StoreProposal, ProposerFor, TryAdopt, SyncEach, SortBy, BlocksFrom, Certificate,
         OpsOf;
  }

  /** Submission reaches. What a correct node announces may be delivered to any other at
      any time, and from then on it waits at both or is on their chains, for good. */
  lemma {:induction false} AnnouncedIsKept(s: Setup, before: seq<Action>, a: Action, mid: seq<Action>, b: Action,
      after: seq<Action>, op: LedgerOp)
    requires Assumptions(s) && LegalRun(s, before + [a] + mid + [b] + after)
    requires a.who in After(s, before) && Op(op) in React(s.c, a.order, After(s, before)[a.who].engine, a.input).out
    requires b.input == Receive(Op(op))
    ensures var sys := After(s, before + [a] + mid + [b] + after);
      && a.who in sys && Safe(sys[a.who].engine, op)
      && b.who in sys && Safe(sys[b.who].engine, op)
  {
    hide Assumptions, React, Safe, After, LegalRun;
    var all := before + [a] + mid + [b] + after;
    OnlyOwnAnnounced(s.c, a.order, After(s, before)[a.who].engine, a.input, op);
    assert before + [a] + (mid + [b] + after) == all;
    OfferedIsKept(s, before, a, mid + [b] + after, op);
    assert before + [a] + mid + [b] + after == all;
    OfferedIsKept(s, before + [a] + mid, b, after, op);
  }

  lemma {:induction false} OfferedIsKept(s: Setup, before: seq<Action>, a: Action, after: seq<Action>, op: LedgerOp)
    requires Assumptions(s) && LegalRun(s, before + [a] + after) && op in Offered(a.input)
    ensures var sys := After(s, before + [a] + after);
      a.who in sys && Safe(sys[a.who].engine, op)
  {
    hide React, Safe, Start, Legal, LegalRun;
    RunRemembers(s, before + [a], after);
    assert (before + [a])[..|before|] == before;
    LastLegal(s, before, a);
    OfferedSafe(s.c, a.order, After(s, before)[a.who].engine, a.input, op);
    SafeForGood(s, before + [a], after, a.who, op);
  }

  lemma {:induction false} LastLegal(s: Setup, before: seq<Action>, a: Action)
    requires LegalRun(s, before + [a])
    ensures a.who in s.correct && a.who in After(s, before)
    ensures After(s, before + [a]) == Perform(s, After(s, before), a)
  {
    hide Perform, MayTake;
    assert (before + [a])[..|before|] == before;
  }

  lemma OfferedSafe(c: Crypto, order: Order, e: Engine, input: Input, op: LedgerOp)
    requires op in Offered(input)
    ensures Safe(React(c, order, e, input).engine, op)
  {
    hide React, Safe;
    NothingPendingIsLost(c, order, e, input);
    assert op in e.mempool + Offered(input);
  }

  /** An undisturbed round executes everything the proposer has waiting, in its order, at
      every node, and leaves none of it in a pool. */
  lemma {:induction false} RoundExecutesPending(
      c: Crypto, nodes: map<Key, Node>, chain: seq<OpBlock>, all: set<Key>, proposer: Key, order: Order,
      deliveries: map<Key, seq<Delivery>>, k: Key)
    requires SignsWell(c) && InStep(c, nodes, chain, all) && k in nodes && k in deliveries
    requires proposer in nodes && ProposerFor(all, |chain|) == Some(proposer) && nodes[proposer].engine.mempool != []
    requires var block := RoundBlock(c, nodes[proposer].engine);
      && SentInRound(c, all, block, deliveries[k]) && (k == proposer || Shown(block, deliveries[k]))
      && |Voters(deliveries[k])| >= QuorumFor(|all|)
    ensures var begun := if k == proposer then Next(c, order, nodes[k], ProposeNow) else nodes[k];
      var e := Delivered(c, begun, deliveries[k]).engine;
      && OpsOf(e.chain) == OpsOf(chain) + nodes[proposer].engine.mempool
      && forall op :: op in nodes[proposer].engine.mempool ==> op !in e.mempool
  {
    hide Inv, ProposerFor, Shown, Holds, RoundDeliveries, SentInRound, InRound, TryPropose, OpsOf, InTurn,
         AnnouncesAppended;
    UndisturbedRound(c, nodes, chain, all, proposer, order, deliveries, k);
    var block := RoundBlock(c, nodes[proposer].engine);
    if k == proposer {
      ReactKeeps(c, order, nodes[k], ProposeNow);
    }
    var begun := if k == proposer then Next(c, order, nodes[k], ProposeNow) else nodes[k];
    SentAreRound(c, all, block, deliveries[k]);
    DeliveredKeeps(c, begun, deliveries[k]);
    var n := Delivered(c, begun, deliveries[k]);
    HeldOps(nodes[k].engine, n.engine, block);
    PoolNew(c, n);
  }

  lemma {:induction false} DeliveredKeeps(c: Crypto, n: Node, deliveries: seq<Delivery>)
    requires Inv(c, n) && SignsWell(c)
    ensures Inv(c, Delivered(c, n, deliveries))
  {
    hide Inv, OnMessage, AnnouncesAppended;
    if deliveries != [] {
      var init, last := deliveries[..|deliveries|-1], deliveries[|deliveries|-1];
      DeliveredKeeps(c, n, init);
      ReactKeeps(c, last.order, Delivered(c, n, init), Receive(last.msg));
    }
  }

  lemma HeldOps(start: Engine, e: Engine, block: OpBlock)
    requires Holds(start, e, block)
    ensures OpsOf(e.chain) == OpsOf(start.chain) + block.ops
  {
    hide OpsOf, ApplyAll;
    var k := |start.chain|;
    assert e.chain == start.chain + [e.chain[k]];
    assert e.chain[k].Header().ops == block.Header().ops;
    OpsOfAppend(start.chain, e.chain[k]);
  }

  lemma PoolNew(c: Crypto, n: Node)
    requires Inv(c, n)
    ensures forall op :: op in n.engine.mempool ==> op !in OpsOf(n.engine.chain)
  {
    hide OpsOf;
  }
}
