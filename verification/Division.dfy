/** Where agreement ends: the exact threshold below which some run of correct nodes
    divides them, and the division that losing a link is enough for. */
module Division {
  import opened Sequences
  import opened Ledger
  import opened Model
  import opened Quorum
  import opened EngineSpec
  import opened EngineInvariants
  import opened Agreement

  /** Neither chain extends the other. */
  ghost predicate Divided(x: seq<OpBlock>, y: seq<OpBlock>) {
    !(Headers(x) <= Headers(y)) && !(Headers(y) <= Headers(x))
  }

  lemma TwoBlocksDivided(x: seq<OpBlock>, y: seq<OpBlock>)
    requires |x| == |y| == 2 && x[1].Header() != y[1].Header()
    ensures Divided(x, y)
  {
    assert Headers(x)[1] != Headers(y)[1];
  }

  // --------------------------------------------------------- too small a threshold

  /** Two blocks for height one, both proposed by that height's proposer. */
  function Candidate(s: Setup, proposer: Key, ticks: nat): OpBlock
    requires ticks < 10
  {
    Proposed(s.c, 1, Genesis(s.c).hash, proposer, [Tick(ticks)], if s.threshold < 1 then 1 else s.threshold)
  }

  /** The chain of a new engine, or that chain with the given block sealed on it. */
  ghost predicate GenesisThen(c: Crypto, e: Engine, block: OpBlock) {
    || e.chain == [Genesis(c)]
    || (|e.chain| == 2 && e.chain[0] == Genesis(c)
        && e.chain[1].Header() == block.Header() && e.chain[1].hash == block.hash)
  }

  function Asked(s: Setup, k: Key, block: OpBlock, order: Order): Node {
    Next(s.c, order, Node(New(s.c, k, s.all), {}), Receive(Propose(block)))
  }

  /** What makes a block a proposal every new engine accepts. */
  ghost predicate Acceptable(s: Setup, block: OpBlock) {
    && block.index == 1 && block.prevHash == Genesis(s.c).hash && block.Hashed(s.c) && block.votes == []
    && ProposerFor(s.all, 1) == Some(block.proposer) && block.proposer in s.all
  }

  lemma AskedUnfolds(s: Setup, k: Key, block: OpBlock, order: Order)
    requires k in s.all && Acceptable(s, block)
    ensures OnPropose(s.c, order, New(s.c, k, s.all), block) ==
      VoteAndSeal(s.c, order, StoreProposal(New(s.c, k, s.all), block), 1, block.hash)
  {
    hide VoteAndSeal, ProposerFor, StoreProposal;
    assert s.all + {k} == s.all && s.all + {block.proposer} == s.all;
    assert AddValidator(New(s.c, k, s.all), block.proposer) == New(s.c, k, s.all);
  }

  /** A new engine shown a candidate votes for it, and seals it only if one vote is
      all it asks for. */
  lemma AskedVotes(s: Setup, k: Key, block: OpBlock, order: Order)
    requires k in s.all && Acceptable(s, block)
    ensures var n := Asked(s, k, block, order);
      && Ballot(1, block.hash) in n.cast && n.engine.validators == s.all
      && GenesisThen(s.c, n.engine, block) && (block.quorum >= 2 ==> n.engine.chain == [Genesis(s.c)])
  {
    hide Certificate, StoreProposal, CastVote, OnPropose, Genesis, ProposerFor;
    var e := New(s.c, k, s.all);
    assert s.all + {k} == s.all;
    AskedUnfolds(s, k, block, order);
    var cast := LoneVote(s.c, e, block);
    var seal := MaybeCommit(order, cast.engine, 1, block.hash);
    OneBallot(k, 1, block.hash, s.c.sign(k, block.hash));
    BallotsInConcat(k, cast.out, seal.out);
  }

  /** The candidate with a certificate signed by the given validators. */
  function Sealed(s: Setup, block: OpBlock, signers: set<Key>, order: Order): OpBlock {
    block.(votes := Certificate(order, map k | k in signers :: s.c.sign(k, block.hash)))
  }

  lemma SealedVerifies(s: Setup, block: OpBlock, signers: set<Key>, order: Order)
    requires SignsWell(s.c) && signers <= s.all && |signers| >= block.Threshold()
    ensures VerifyCertificate(s.c, s.all, Sealed(s, block, signers, order))
    ensures forall i :: 0 <= i < |Sealed(s, block, signers, order).votes| ==>
      Sealed(s, block, signers, order).votes[i].voter in signers
  {
    var signatures := map k | k in signers :: s.c.sign(k, block.hash);
    assert signatures.Keys == signers;
    SealVerifies(s.c, order, s.all, block, signatures);
    var sealed := Sealed(s, block, signers, order);
    forall i | 0 <= i < |sealed.votes| ensures sealed.votes[i].voter in signers {
      assert order(signatures.Keys)[i] in order(signatures.Keys);
    }
  }

  /** It is genuine once the correct signers have voted. */
  lemma SealedGenuine(s: Setup, sys: System, block: OpBlock, signers: set<Key>, order: Order)
    requires SignsWell(s.c) && signers <= s.all && |signers| >= block.Threshold()
    requires block.Hashed(s.c) && block.quorum >= s.threshold
    requires forall k :: k in signers && k in s.correct ==> HasCast(sys, k, block.hash)
    ensures GenuineBlock(s, sys, Sealed(s, block, signers, order))
  {
    hide Certificate, HasCast;
    SealedVerifies(s, block, signers, order);
    assert Sealed(s, block, signers, order).Header() == block.Header();
  }

  /** Hearing of the sealed candidate, an engine that has sealed no other holds it. */
  lemma HearsSealed(s: Setup, e: Engine, sealed: OpBlock, order: Order)
    requires GenesisThen(s.c, e, sealed) && s.all <= e.validators
    requires sealed.index == 1 && sealed.prevHash == Genesis(s.c).hash && VerifyCertificate(s.c, s.all, sealed)
    ensures var r := OnMessage(s.c, order, e, Committed(sealed)).engine;
      |r.chain| == 2 && r.chain[1].Header() == sealed.Header() && r.chain[1].hash == sealed.hash
  {
    hide Genesis;
    MoreValidators(s.c, s.all, e.validators + {sealed.proposer}, sealed);
  }

  // ------------------------------------------------------------------- the run

  /** Each of the listed nodes is shown the block of its group. */
  function Asking(todo: seq<Key>, group: set<Key>, x: OpBlock, y: OpBlock, order: Order): seq<Action> {
    if todo == [] then []
    else
      var k := todo[|todo|-1];
      Asking(todo[..|todo|-1], group, x, y, order) + [Action(k, Receive(Propose(if k in group then x else y)), order)]
  }

  function NodeAfter(s: Setup, k: Key, todo: seq<Key>, group: set<Key>, x: OpBlock, y: OpBlock, order: Order): Node {
    if k in todo then Asked(s, k, if k in group then x else y, order) else Node(New(s.c, k, s.all), {})
  }

  function SystemAfter(s: Setup, todo: seq<Key>, group: set<Key>, x: OpBlock, y: OpBlock, order: Order): System {
    map k | k in s.correct :: NodeAfter(s, k, todo, group, x, y, order)
  }

  lemma AskingOne(s: Setup, init: seq<Key>, k: Key, group: set<Key>, x: OpBlock, y: OpBlock, order: Order)
    requires k in s.correct && k !in init
    ensures Perform(s, SystemAfter(s, init, group, x, y, order),
                    Action(k, Receive(Propose(if k in group then x else y)), order))
         == SystemAfter(s, init + [k], group, x, y, order)
  {
    hide Next, New;
    forall j | j in s.correct && j != k
      ensures NodeAfter(s, j, init + [k], group, x, y, order) == NodeAfter(s, j, init, group, x, y, order)
    {}
  }

  lemma LegalAsking(s: Setup, sys: System, k: Key, block: OpBlock, order: Order)
    requires k in s.correct && k in sys && block.votes == [] && block.quorum >= s.threshold
    ensures Legal(s, sys, Action(k, Receive(Propose(block)), order))
  {}

  lemma {:induction false} AskingRun(s: Setup, todo: seq<Key>, group: set<Key>, x: OpBlock, y: OpBlock, order: Order)
    requires Distinct(todo) && forall k :: k in todo ==> k in s.correct
    requires x.Hashed(s.c) && y.Hashed(s.c) && x.votes == [] && y.votes == []
    requires x.quorum >= s.threshold && y.quorum >= s.threshold
    ensures LegalRun(s, Asking(todo, group, x, y, order))
    ensures After(s, Asking(todo, group, x, y, order)) == SystemAfter(s, todo, group, x, y, order)
  {
    hide Perform, Legal, NodeAfter, Start;
    var actions := Asking(todo, group, x, y, order);
    if todo != [] {
      var init, k := todo[..|todo|-1], todo[|todo|-1];
      assert todo == init + [k];
      assert k !in init;
      AskingRun(s, init, group, x, y, order);
      assert actions[..|actions|-1] == Asking(init, group, x, y, order);
      AskingOne(s, init, k, group, x, y, order);
      LegalAsking(s, SystemAfter(s, init, group, x, y, order), k, if k in group then x else y, order);
    } else {
      assert actions == [];
      NobodyAsked(s, group, x, y, order);
    }
  }

  lemma NobodyAsked(s: Setup, group: set<Key>, x: OpBlock, y: OpBlock, order: Order)
    ensures Start(s) == SystemAfter(s, [], group, x, y, order)
  {}

  /** Two nodes hear of two genuine blocks, one each. */
  lemma Announced(s: Setup, before: seq<Action>, a: Key, b: Key, x: OpBlock, y: OpBlock, order: Order)
    returns (actions: seq<Action>)
    requires LegalRun(s, before) && a != b && a in s.correct && b in s.correct
    requires a in After(s, before) && b in After(s, before)
    requires GenuineBlock(s, After(s, before), x) && GenuineBlock(s, After(s, before), y)
    ensures LegalRun(s, actions)
    ensures var sys := After(s, before); var later := After(s, actions);
      && a in later && b in later
      && later[a].engine == OnMessage(s.c, order, sys[a].engine, Committed(x)).engine
      && later[b].engine == OnMessage(s.c, order, sys[b].engine, Committed(y)).engine
  {
    hide GenuineBlock, OnMessage, BallotsIn;
    var sys := After(s, before);
    var first := Action(a, Receive(Committed(x)), order);
    var second := Action(b, Receive(Committed(y)), order);
    var mid := Perform(s, sys, first);
    MessageLater(s, sys, mid, Committed(y));
    var one := before + [first];
    assert one[..|one|-1] == before;
    actions := one + [second];
    assert actions[..|actions|-1] == one;
  }

  /** Two groups of enough signers that share no correct one, and two correct nodes:
      the blocks the groups sign, one for each node. */
  ghost predicate MayDivide(s: Setup, x: OpBlock, y: OpBlock, gx: set<Key>, gy: set<Key>, a: Key, b: Key) {
    && a in s.correct && b in s.correct && a != b
    && gx <= s.all && gy <= s.all && gx * gy <= s.all - s.correct
    && Acceptable(s, x) && Acceptable(s, y) && x.Header() != y.Header()
    && x.quorum == y.quorum >= s.threshold && |gx| >= x.Threshold() && |gy| >= y.Threshold()
    && (x.quorum >= 2 || (a !in gy && b !in gx))
  }

  /** They divide the nodes in a legal run. */
  lemma GroupsDivide(s: Setup, order: Order, x: OpBlock, y: OpBlock, gx: set<Key>, gy: set<Key>, a: Key, b: Key)
    returns (actions: seq<Action>)
    requires Setting(s) && MayDivide(s, x, y, gx, gy, a, b)
    ensures LegalRun(s, actions)
    ensures var sys := After(s, actions);
      a in sys && b in sys && Divided(sys[a].engine.chain, sys[b].engine.chain)
  {
    hide Setting, GenuineBlock, Sealed, OnMessage, Asked, HasCast, Acceptable, After, LegalRun, New, Genesis;
    SettingFacts(s);
    AcceptableFacts(s, x);
    AcceptableFacts(s, y);
    var todo := Ascending((gx + gy) * s.correct);
    var asking := Asking(todo, gx, x, y, order);
    AskingRun(s, todo, gx, x, y, order);
    var sys := After(s, asking);
    forall k | k in gx && k in s.correct ensures HasCast(sys, k, x.hash) {
      AskedVotes(s, k, x, order);
      CastOne(sys, k, x.hash);
    }
    forall k | k in gy && k in s.correct ensures HasCast(sys, k, y.hash) {
      assert k in gx ==> k in gx * gy;
      AskedVotes(s, k, y, order);
      CastOne(sys, k, y.hash);
    }
    SealedGenuine(s, sys, x, gx, order);
    SealedGenuine(s, sys, y, gy, order);
    actions := Announced(s, asking, a, b, Sealed(s, x, gx, order), Sealed(s, y, gy, order), order);
    StaysOnBlock(s, a, todo, gx, x, y, order);
    StaysOnBlock(s, b, todo, gx, x, y, order);
    HearsOwn(s, sys[a].engine, x, gx, order);
    HearsOwn(s, sys[b].engine, y, gy, order);
    TwoBlocksDivided(After(s, actions)[a].engine.chain, After(s, actions)[b].engine.chain);
  }

  lemma AcceptableFacts(s: Setup, block: OpBlock)
    requires Acceptable(s, block)
    ensures block.index == 1 && block.prevHash == Genesis(s.c).hash && block.Hashed(s.c) && block.votes == []
  {}

  lemma SettingFacts(s: Setup)
    requires Setting(s)
    ensures s.correct <= s.all && SignsWell(s.c)
  {}

  lemma CastOne(sys: System, k: Key, hash: Digest)
    requires k in sys && Ballot(1, hash) in sys[k].cast
    ensures HasCast(sys, k, hash)
  {}

  /** After the asking a correct node holds at most the block of its group. */
  lemma StaysOnBlock(s: Setup, k: Key, todo: seq<Key>, group: set<Key>, x: OpBlock, y: OpBlock, order: Order)
    requires k in s.all && Acceptable(s, x) && Acceptable(s, y)
    ensures var e := NodeAfter(s, k, todo, group, x, y, order).engine;
      && s.all <= e.validators
      && (k in todo ==> GenesisThen(s.c, e, if k in group then x else y))
      && (k !in todo || (x.quorum >= 2 && y.quorum >= 2) ==> e.chain == [Genesis(s.c)])
  {
    hide Acceptable, Asked, Genesis;
    if k in todo {
      AskedVotes(s, k, if k in group then x else y, order);
    }
  }

  lemma HearsOwn(s: Setup, e: Engine, block: OpBlock, signers: set<Key>, order: Order)
    requires SignsWell(s.c) && signers <= s.all && |signers| >= block.Threshold()
    requires GenesisThen(s.c, e, block) && s.all <= e.validators
    requires block.index == 1 && block.prevHash == Genesis(s.c).hash
    ensures var r := OnMessage(s.c, order, e, Committed(Sealed(s, block, signers, order))).engine;
      |r.chain| == 2 && r.chain[1].Header() == block.Header() && r.chain[1].hash == block.hash
  {
    hide OnMessage, Certificate, Genesis, VerifyCertificate;
    SealedVerifies(s, block, signers, order);
    HearsSealed(s, e, Sealed(s, block, signers, order), order);
  }

  // ---------------------------------------------------------- the exact threshold

  lemma TwoOf<T>(s: set<T>) returns (a: T, b: T)
    requires |s| >= 2
    ensures a in s && b in s && a != b
  {
    a :| a in s;
    assert |s - {a}| >= 1;
    b :| b in s - {a};
  }

  lemma CandidateAcceptable(s: Setup, proposer: Key, ticks: nat)
    requires ticks < 10 && s.all != {} && ProposerFor(s.all, 1) == Some(proposer)
    ensures Acceptable(s, Candidate(s, proposer, ticks))
  {
    var order := Ascending(s.all);
    assert order[1 % |s.all|] in order;
  }

  /** Below the threshold there always is such a pair of groups. */
  lemma SomeGroupsDivide(s: Setup)
    returns (x: OpBlock, y: OpBlock, gx: set<Key>, gy: set<Key>, a: Key, b: Key)
    requires s.correct <= s.all && |s.correct| >= 2 && 2 * s.threshold <= |s.all| + |s.all - s.correct|
    ensures MayDivide(s, x, y, gx, gy, a, b)
  {
    hide Acceptable, ProposerFor;
    SubsetSize(s.correct, s.all);
    var proposer := SomeProposer(s.all);
    x, y := Candidate(s, proposer, 1), Candidate(s, proposer, 2);
    CandidateAcceptable(s, proposer, 1);
    CandidateAcceptable(s, proposer, 2);
    assert x.ops[0] != y.ops[0];
    a, b := TwoOf(s.correct);
    var faulty := s.all - s.correct;
    if s.threshold >= 2 {
      gx, gy := DividingGroups(s.all, faulty, s.threshold);
    } else if faulty != {} {
      var f :| f in faulty;
      gx, gy := {f}, {f};
    } else {
      gx, gy := {a}, {b};
    }
  }

  lemma SomeProposer(all: set<Key>) returns (proposer: Key)
    requires all != {}
    ensures ProposerFor(all, 1) == Some(proposer)
  {
    proposer := ProposerFor(all, 1).value;
  }

  // ------------------------------------------------- a hash nobody has checked

  /** The sealed block with other operations under the same hash and signatures. */
  function Altered(s: Setup, block: OpBlock, signers: set<Key>, order: Order): OpBlock {
    Sealed(s, block, signers, order).(ops := [Tick(2)])
  }

  /** What a receiver looks at is the same in both. */
  lemma AlteredVerifies(s: Setup, block: OpBlock, signers: set<Key>, order: Order)
    requires SignsWell(s.c) && signers <= s.all && |signers| >= block.Threshold()
    ensures VerifyCertificate(s.c, s.all, Altered(s, block, signers, order))
  {
    hide Certificate;
    SealedVerifies(s, block, signers, order);
    assert ValidVoters(s.c, s.all, Altered(s, block, signers, order))
        == ValidVoters(s.c, s.all, Sealed(s, block, signers, order));
  }

  lemma AlteredGenuine(s: Setup, sys: System, block: OpBlock, signers: set<Key>, order: Order)
    requires !s.hashing && GenuineBlock(s, sys, Sealed(s, block, signers, order))
    ensures GenuineBlock(s, sys, Altered(s, block, signers, order))
  {
    hide Certificate, HasCast;
  }

  lemma HearsAltered(s: Setup, e: Engine, block: OpBlock, signers: set<Key>, order: Order)
    requires SignsWell(s.c) && signers <= s.all && |signers| >= block.Threshold()
    requires e.chain == [Genesis(s.c)] && s.all <= e.validators
    requires block.index == 1 && block.prevHash == Genesis(s.c).hash
    ensures var r := OnMessage(s.c, order, e, Committed(Altered(s, block, signers, order))).engine;
      |r.chain| == 2 && r.chain[1].ops == [Tick(2)] && r.chain[1].hash == block.hash
  {
    hide OnMessage, Certificate, Genesis, VerifyCertificate;
    AlteredVerifies(s, block, signers, order);
    HearsSealed(s, e, Altered(s, block, signers, order), order);
  }

  /** Enough signers for one block, and two correct nodes of which the second has not
      sealed it. */
  ghost predicate MayMislead(s: Setup, x: OpBlock, g: set<Key>, a: Key, b: Key) {
    && a in s.correct && b in s.correct && a != b
    && g <= s.all && |g| >= x.Threshold() && Acceptable(s, x) && x.ops == [Tick(1)]
    && x.quorum >= s.threshold && (x.quorum >= 2 || b !in g)
  }

  /** Where the hash of a committed block is not to be relied on, one block with
      altered operations divides them. No signature is forged and nobody need be
      faulty: the head hashes even stay equal. */
  lemma AlteredDivides(s: Setup, order: Order, x: OpBlock, g: set<Key>, a: Key, b: Key) returns (actions: seq<Action>)
    requires Setting(s) && !s.hashing && MayMislead(s, x, g, a, b)
    ensures LegalRun(s, actions)
    ensures var sys := After(s, actions);
      && a in sys && b in sys && Divided(sys[a].engine.chain, sys[b].engine.chain)
      && sys[a].engine.HeadHash() == sys[b].engine.HeadHash()
  {
    hide Setting, GenuineBlock, Sealed, Altered, OnMessage, Asked, HasCast, Acceptable, After, LegalRun, New, Genesis;
    SettingFacts(s);
    AcceptableFacts(s, x);
    var todo := Ascending(g * s.correct);
    var asking := Asking(todo, g, x, x, order);
    AskingRun(s, todo, g, x, x, order);
    var sys := After(s, asking);
    forall k | k in g && k in s.correct ensures HasCast(sys, k, x.hash) {
      AskedVotes(s, k, x, order);
      CastOne(sys, k, x.hash);
    }
    SealedGenuine(s, sys, x, g, order);
    AlteredGenuine(s, sys, x, g, order);
    actions := Announced(s, asking, a, b, Sealed(s, x, g, order), Altered(s, x, g, order), order);
    StaysOnBlock(s, a, todo, g, x, x, order);
    StaysOnBlock(s, b, todo, g, x, x, order);
    HearsOwn(s, sys[a].engine, x, g, order);
    HearsAltered(s, sys[b].engine, x, g, order);
    var end := After(s, actions);
    assert end[a].engine.chain[1].Header().ops[0] == Tick(1);
    TwoBlocksDivided(end[a].engine.chain, end[b].engine.chain);
  }

  lemma SomeoneMisled(s: Setup) returns (x: OpBlock, g: set<Key>, a: Key, b: Key)
    requires s.correct <= s.all && |s.correct| >= 2 && s.threshold <= |s.all|
    ensures MayMislead(s, x, g, a, b)
  {
    hide Acceptable, ProposerFor;
    SubsetSize(s.correct, s.all);
    var proposer := SomeProposer(s.all);
    x := Candidate(s, proposer, 1);
    CandidateAcceptable(s, proposer, 1);
    a, b := TwoOf(s.correct);
    g := if s.threshold >= 2 then s.all else {a};
  }

  // --------------------------------------------------------- exactly when it holds

  /** No legal run divides two correct nodes. */
  ghost predicate NeverDivided(s: Setup) {
    forall actions: seq<Action>, a: Key, b: Key :: LegalRun(s, actions) && a in s.correct && b in s.correct ==>
      KeptTogether(After(s, actions), a, b)
  }

  ghost predicate KeptTogether(sys: System, a: Key, b: Key) {
    a in sys && b in sys && !Divided(sys[a].engine.chain, sys[b].engine.chain)
  }

  /** Agreement holds over all runs if and only if hashes can be relied on and any two
      groups of `threshold` validators share a correct one; or if no block can ever be
      certified, the threshold being out of reach. */
  lemma AgreementExactly(s: Setup)
    requires Setting(s) && |s.correct| >= 2
    ensures NeverDivided(s) <==>
      (s.hashing && 2 * s.threshold > |s.all| + |s.all - s.correct|) || s.threshold > |s.all|
  {
    hide LegalRun, After, MayDivide, MayMislead, Setting;
    SettingFacts(s);
    if s.threshold > |s.all| {
      OutOfReach(s);
    } else if 2 * s.threshold <= |s.all| + |s.all - s.correct| {
      var x, y, gx, gy, a, b := SomeGroupsDivide(s);
      var actions := GroupsDivide(s, Ascending, x, y, gx, gy, a, b);
      MayDivideFacts(s, x, y, gx, gy, a, b);
      assert !KeptTogether(After(s, actions), a, b);
    } else if !s.hashing {
      var x, g, a, b := SomeoneMisled(s);
      var actions := AlteredDivides(s, Ascending, x, g, a, b);
      MayMisleadFacts(s, x, g, a, b);
      assert !KeptTogether(After(s, actions), a, b);
    } else {
      AboveThreshold(s);
    }
  }

  lemma MayMisleadFacts(s: Setup, x: OpBlock, g: set<Key>, a: Key, b: Key)
    requires MayMislead(s, x, g, a, b)
    ensures a in s.correct && b in s.correct
  {}

  /** A chain of more than one block needs the threshold's number of validators. */
  lemma NothingCertified(s: Setup, sys: System, chain: seq<OpBlock>)
    requires Settled(s, sys, chain) && s.threshold > |s.all|
    ensures chain == [Genesis(s.c)]
  {
    hide SelfCertified, Genuine, Genesis;
    if |chain| > 1 {
      assert chain[1].index == 1;
      var voters := Quorate(s, sys, chain[1]);
      SubsetSize(voters, s.all);
    }
  }

  lemma OutOfReach(s: Setup)
    requires Setting(s) && s.threshold > |s.all|
    ensures NeverDivided(s)
  {
    hide Setting, LegalRun, After, Settled, NodeOk, Genesis;
    forall actions: seq<Action>, a: Key, b: Key | LegalRun(s, actions) && a in s.correct && b in s.correct
      ensures KeptTogether(After(s, actions), a, b)
    {
      RunOk(s, actions);
      var sys := After(s, actions);
      NodeSettled(s, sys, a);
      NodeSettled(s, sys, b);
      NothingCertified(s, sys, sys[a].engine.chain);
      NothingCertified(s, sys, sys[b].engine.chain);
    }
  }

  lemma MayDivideFacts(s: Setup, x: OpBlock, y: OpBlock, gx: set<Key>, gy: set<Key>, a: Key, b: Key)
    requires MayDivide(s, x, y, gx, gy, a, b)
    ensures a in s.correct && b in s.correct
  {}

  lemma AboveThreshold(s: Setup)
    requires Assumptions(s)
    ensures NeverDivided(s)
  {
    hide Assumptions, LegalRun, After;
    forall actions: seq<Action>, a: Key, b: Key | LegalRun(s, actions) && a in s.correct && b in s.correct
      ensures KeptTogether(After(s, actions), a, b)
    {
      Agreement.Agreement(s, actions, a, b);
    }
  }

  // -------------------------------------------------------------- a lost link

  /** Two nodes lose the link between them, and each goes on alone. */
  function LostLink(a: Key, b: Key, op: LedgerOp, order: Order): seq<Action> {
    [Action(a, Disconnect(b), order), Action(a, LocalOp(op), order), Action(a, ProposeNow, order),
     Action(b, Disconnect(a), order), Action(b, LocalOp(op), order), Action(b, ProposeNow, order)]
  }

  function Alone(c: Crypto, me: Key, other: Key, op: LedgerOp, order: Order): Node {
    var n := Next(c, order, Node(New(c, me, {me, other}), {}), Disconnect(other));
    Next(c, order, Next(c, order, n, LocalOp(op)), ProposeNow)
  }

  lemma OnlyProposer(me: Key)
    ensures ProposerFor({me}, 1) == Some(me) && QuorumFor(|{me}|) == 1
  {
    assert Ascending({me})[0] in Ascending({me});
  }

  /** A new engine with a link lost and one operation pooled. */
  function Solo(c: Crypto, me: Key, other: Key, op: LedgerOp): Engine {
    New(c, me, {me, other}).(active := {me}, mempool := [op])
  }

  lemma AloneIsSolo(c: Crypto, me: Key, other: Key, op: LedgerOp, order: Order)
    requires me != other
    ensures Alone(c, me, other, op, order).engine == TryPropose(c, order, Solo(c, me, other, op)).engine
  {
    hide TryPropose, AddToMempool, Genesis;
    assert {me, other} + {me} - {other} == {me};
    AddToEmpty(c, New(c, me, {me, other}).(active := {me}), op);
  }

  /** A node that has lost its only peer is the whole active set: its own vote seals
      its own block. */
  lemma AloneSeals(c: Crypto, me: Key, other: Key, op: LedgerOp, order: Order)
    requires me != other
    ensures var chain := Alone(c, me, other, op, order).engine.chain;
      |chain| == 2 && chain[1].Header() == OpHeader(1, Genesis(c).hash, me, [op], 1)
  {
    hide ProposerFor, Genesis, TryPropose, MaybeCommit, Alone;
    OnlyProposer(me);
    AloneIsSolo(c, me, other, op, order);
    var block, cast, seal := FirstProposal(c, order, Solo(c, me, other, op));
    LoneSeal(c, order, cast.engine, block);
  }

  /** A block that asks for one signature is sealed by the only vote on record. */
  lemma LoneSeal(c: Crypto, order: Order, e: Engine, block: OpBlock)
    requires e.chain == [Genesis(c)] && block.index == 1 && block.prevHash == Genesis(c).hash && block.quorum == 1
    requires ProposalsAt(e, 1) == map[block.hash := block] && |VotesFor(e, 1, block.hash)| == 1
    ensures var chain := MaybeCommit(order, e, 1, block.hash).engine.chain;
      |chain| == 2 && chain[1].Header() == block.Header()
  {
    hide Genesis, Certificate;
  }

  /** So two correct nodes, with nobody faulty and no message forged, divide once
      each has marked the other inactive; a run that is legal exactly when one
      signature is all the threshold asks for. */
  lemma {:induction false} LostLinkDivides(s: Setup, a: Key, b: Key, op: LedgerOp, order: Order)
    requires a != b && s.all == s.correct == {a, b}
    ensures var sys := After(s, LostLink(a, b, op, order));
      a in sys && b in sys && Divided(sys[a].engine.chain, sys[b].engine.chain)
    ensures LegalRun(s, LostLink(a, b, op, order)) <==> s.threshold <= 1
  {
    hide Next, New, Genesis, LegalRun;
    LostLinkEnds(s, a, b, op, order);
    LostLinkLegal(s, a, b, op, order);
    AloneSeals(s.c, a, b, op, order);
    AloneSeals(s.c, b, a, op, order);
    var sys := After(s, LostLink(a, b, op, order));
    TwoBlocksDivided(sys[a].engine.chain, sys[b].engine.chain);
  }

  lemma {:induction false} LegalOneMore(s: Setup, l: seq<Action>, k: nat)
    requires k < |l|
    ensures LegalRun(s, l[..k+1]) <==> LegalRun(s, l[..k]) && Legal(s, After(s, l[..k]), l[k])
  {
    assert l[..k+1][..k] == l[..k];
  }

  /** Losing a link and pooling an operation are always legal; what decides is the
      proposal, made with an active set of one. */
  lemma StepsAlone(s: Setup, sys: System, k: Key, other: Key, op: LedgerOp, order: Order)
    requires k in s.correct && k in sys && sys[k] == Node(New(s.c, k, {k, other}), {}) && k != other
    ensures var lost := Perform(s, sys, Action(k, Disconnect(other), order));
      var pooled := Perform(s, lost, Action(k, LocalOp(op), order));
      && Legal(s, sys, Action(k, Disconnect(other), order)) && Legal(s, lost, Action(k, LocalOp(op), order))
      && (Legal(s, pooled, Action(k, ProposeNow, order)) <==> s.threshold <= 1)
      && Perform(s, pooled, Action(k, ProposeNow, order)) == sys[k := Alone(s.c, k, other, op, order)]
  {
    hide Next, New;
    AloneActive(s.c, k, other, op, order);
    OnlyProposer(k);
  }

  lemma AloneActive(c: Crypto, me: Key, other: Key, op: LedgerOp, order: Order)
    requires me != other
    ensures var n := Next(c, order, Node(New(c, me, {me, other}), {}), Disconnect(other));
      Next(c, order, n, LocalOp(op)).engine.active == {me}
  {
    hide AddToMempool, Genesis;
    assert {me, other} + {me} - {other} == {me};
    SameMembers(New(c, me, {me, other}).(active := {me}), op);
  }

  lemma {:induction false} LostLinkLegal(s: Setup, a: Key, b: Key, op: LedgerOp, order: Order)
    requires a != b && s.all == s.correct == {a, b}
    ensures LegalRun(s, LostLink(a, b, op, order)) <==> s.threshold <= 1
  {
    hide LegalRun, After, Legal, Perform, New, Alone;
    var l := LostLink(a, b, op, order);
    assert l[..0] == [] && l[..6] == l;
    LegalOneMore(s, l, 0);
    LegalOneMore(s, l, 1);
    LegalOneMore(s, l, 2);
    LegalOneMore(s, l, 3);
    LegalOneMore(s, l, 4);
    LegalOneMore(s, l, 5);
    AfterOneMore(s, l, 0);
    AfterOneMore(s, l, 1);
    AfterOneMore(s, l, 2);
    AfterOneMore(s, l, 3);
    AfterOneMore(s, l, 4);
    NothingYet(s, a, b);
    StepsAlone(s, After(s, []), a, b, op, order);
    StepsAlone(s, After(s, l[..3]), b, a, op, order);
  }

  lemma {:induction false} NothingYet(s: Setup, a: Key, b: Key)
    requires a != b && s.all == s.correct == {a, b}
    ensures LegalRun(s, [])
    ensures var sys := After(s, []);
      sys.Keys == {a, b} && sys[a] == Node(New(s.c, a, {a, b}), {}) && sys[b] == Node(New(s.c, b, {b, a}), {})
  {
    assert {a, b} == {b, a};
  }

  lemma {:induction false} SixActions(s: Setup, l: seq<Action>)
    requires |l| == 6
    ensures After(s, l) == Perform(s, Perform(s, Perform(s, Perform(s, Perform(s, Perform(s, Start(s),
      l[0]), l[1]), l[2]), l[3]), l[4]), l[5])
  {
    hide Perform, Start;
    assert l[..0] == [] && l[..6] == l;
    AfterOneMore(s, l, 0);
    AfterOneMore(s, l, 1);
    AfterOneMore(s, l, 2);
    AfterOneMore(s, l, 3);
    AfterOneMore(s, l, 4);
    AfterOneMore(s, l, 5);
  }

  lemma {:induction false} AfterOneMore(s: Setup, l: seq<Action>, k: nat)
    requires k < |l|
    ensures After(s, l[..k+1]) == Perform(s, After(s, l[..k]), l[k])
  {
    assert l[..k+1][..k] == l[..k];
  }

  lemma {:induction false} LostLinkEnds(s: Setup, a: Key, b: Key, op: LedgerOp, order: Order)
    requires a != b && s.all == s.correct == {a, b}
    ensures After(s, LostLink(a, b, op, order))
      == map[a := Alone(s.c, a, b, op, order), b := Alone(s.c, b, a, op, order)]
  {
    hide Next, New;
    var l := LostLink(a, b, op, order);
    SixActions(s, l);
    assert {a, b} == {b, a};
    var start := Start(s);
    assert start == map[a := Node(New(s.c, a, {a, b}), {}), b := Node(New(s.c, b, {b, a}), {})];
    var alone := Alone(s.c, a, b, op, order);
    assert Perform(s, Perform(s, Perform(s, start, l[0]), l[1]), l[2]) == start[a := alone];
  }
}
