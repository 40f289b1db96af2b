/** A literal log after which one worker's weight is the largest there is. On the next
    task a digest with more than enough support is missed, and when the task does
    settle the worker is paid more than was ever minted. */
module WrappedRuns {
  import opened Words
  import opened Sequences
  import opened Ledger
  import opened Model
  import opened Reward
  import opened NetworkSpec
  import opened TaskInvariants
  import opened TaskOutcomes
  import opened QuotaInvariants
  import opened Books
  import opened FailingRuns

  /** One accepted report is worth half the range of a weight. */
  const STEEP: Config := Config(3, 2, 5, 1, HALF - 1, 1)

  // ------------------------------------------------------------------- one task

  function Waiting(t: TaskId, reward: u64, reports: seq<TaskReport>): Task {
    Task(t, 1, reward, "", 2, 5, reports, Pending, None)
  }

  /** Nothing is leased and at most the given tasks are queued. */
  ghost predicate Quiet(s: NetState, pending: seq<TaskId>) {
    && s.config == STEEP && s.now == 0 && s.leases == map[] && s.pending == pending
    && 1 in s.projects && s.projects[1].ownerId == 7
  }

  ghost predicate Desk(s: NetState, t: TaskId, reward: u64, reports: seq<TaskReport>) {
    Quiet(s, [t]) && t in s.tasks && s.tasks[t] == Waiting(t, reward, reports)
  }

  function Vouch(w: ParticipantId): TaskReport {
    TaskReport(w, "x", 0, None)
  }

  lemma Offer(s: NetState, reward: u64)
    requires Quiet(s, []) && reward <= s.projects[1].quotaAvailable && s.projects[1].quotaLocked + reward < LIMIT
    ensures var r := Apply(s, SubmitTask(7, 1, reward, ""));
      && Desk(r, s.nextTask, reward, []) && r.nextTask == s.nextTask + 1
      && r.participants == s.participants && r.ledger == s.ledger
      && (reward == 0 ==> r.projects == s.projects)
  {
    if reward == 0 {
      assert s.projects[1 := s.projects[1]] == s.projects;
    }
  }

  /** The state in which a worker's report on the only task is concluded. */
  function Reporting(s: NetState, w: ParticipantId, t: TaskId): NetState
    requires t in s.tasks
  {
    s.(pending := [], tasks := s.tasks[t := s.tasks[t].(status := Assigned(w, 3),
      reports := s.tasks[t].reports + [Vouch(w)])])
  }

  lemma Requested(s: NetState, w: ParticipantId, t: TaskId, reward: u64, reports: seq<TaskReport>)
    requires Desk(s, t, reward, reports) && w in s.participants && !Reported(s.tasks[t], w)
    ensures Apply(s, RequestTask(w, 0)) ==
      s.(pending := [], leases := map[t := Lease(w, 3)], tasks := s.tasks[t := s.tasks[t].(status := Assigned(w, 3))])
  {
    hide Reclaim, Reported;
    ReclaimIdle(s);
    assert [t][..0] == [];
    assert BestTask(s, w, []) == None;
    assert BestTask(s, w, [t]) == Some(t);
    assert Without([t], t) == [];
  }

  /** Request and report on the only task. */
  function Turn(s: NetState, w: ParticipantId, t: TaskId): NetState {
    Apply(Apply(s, RequestTask(w, 0)), SubmitResult(w, t, "x", 0, None))
  }

  lemma TurnConcludes(s: NetState, w: ParticipantId, t: TaskId, reward: u64, reports: seq<TaskReport>)
    requires Desk(s, t, reward, reports) && w in s.participants && !Reported(s.tasks[t], w)
    ensures Turn(s, w, t) == Conclude(Reporting(s, w, t), t).state
  {
    hide Reclaim, Conclude, Reported, Request;
    Requested(s, w, t, reward, reports);
    var asked := Apply(s, RequestTask(w, 0));
    ReclaimIdle(asked);
    assert asked.leases - {t} == map[];
    assert Report(asked, w, t, Vouch(w)) == Reporting(s, w, t);
  }

  /** Without a winner the task goes back to the queue. */
  lemma TurnUndecided(s: NetState, w: ParticipantId, t: TaskId, reward: u64, reports: seq<TaskReport>)
    requires Desk(s, t, reward, reports) && w in s.participants && !Reported(s.tasks[t], w)
    requires ConsensusDigest(s.participants, reports + [Vouch(w)], 2) == None && |reports| < 4
    ensures var r := Turn(s, w, t);
      Desk(r, t, reward, reports + [Vouch(w)]) && r == s.(tasks := r.tasks)
  {
    hide ConsensusDigest, Turn, Reported;
    TurnConcludes(s, w, t, reward, reports);
  }

  lemma NotExhausted()
    ensures !IsBudgetExhausted("x")
  {}

  ghost predicate AllVouch(reports: seq<TaskReport>) {
    forall i :: 0 <= i < |reports| ==> reports[i] == Vouch(reports[i].workerId)
  }

  lemma {:induction false} AllBack(reports: seq<TaskReport>)
    requires AllVouch(reports)
    ensures Backers(reports, "x") == Reporters(reports) && Dissenters(reports, "x") == []
    ensures |Reporters(reports)| == |reports|
  {
    if reports != [] {
      AllBack(reports[..|reports|-1]);
    }
  }

  /** What settling leaves for the reporters. */
  function Praised(ps: map<ParticipantId, Participant>, reports: seq<TaskReport>): map<ParticipantId, Participant> {
    AdjustEach(ps, Reporters(reports), HALF - 1)
  }

  function Payees(ps: map<ParticipantId, Participant>, reports: seq<TaskReport>): seq<Winner> {
    Weighted(ps, Reporters(reports))
  }

  /** With a winner the task is settled and the reporters are praised. */
  lemma {:induction false} TurnDecided(s: NetState, w: ParticipantId, t: TaskId, reward: u64, reports: seq<TaskReport>)
    requires Desk(s, t, reward, reports) && w in s.participants && !Reported(s.tasks[t], w) && AllVouch(reports)
    requires ConsensusDigest(s.participants, reports + [Vouch(w)], 2) == Some("x")
    requires WrappedWeight(Payees(s.participants, reports + [Vouch(w)])) > 0
    ensures var r := Turn(s, w, t); var all := reports + [Vouch(w)];
      && Quiet(r, []) && r.nextTask == s.nextTask && r.participants == Praised(s.participants, all)
      && r.projects == s.projects[1 := s.projects[1].(quotaLocked := SatSub(s.projects[1].quotaLocked, reward))]
      && var winners := Payees(s.participants, all);
      r.Txs() == s.Txs() + RewardTxs(ProjectAddress(1), t, Distribute(reward, WrappedWeight(winners), winners))
  {
    hide ConsensusDigest, Turn, Reported, IsBudgetExhausted, Distribute, RewardTxs, Flatten, AdjustEach, Weighted,
         Backers, Reporters;
    TurnConcludes(s, w, t, reward, reports);
    NotExhausted();
    var all := reports + [Vouch(w)];
    AllBack(all);
    var s2 := Reporting(s, w, t);
    var released := Release(s2, 1, reward).state;
    SettleTxs(released, t, "x", Payees(s.participants, all));
    NobodyBlamed(AdjustEach(s.participants, Reporters(all), HALF - 1));
  }

  lemma {:induction false} NobodyBlamed(ps: map<ParticipantId, Participant>)
    ensures AdjustEach(ps, [], PenaltyDelta(STEEP)) == ps
    ensures RewardDelta(STEEP) == HALF - 1
  {}

  lemma {:induction false} NothingToPay(from: Address, t: TaskId, shares: seq<Share>)
    requires forall i :: 0 <= i < |shares| ==> shares[i].amount == 0
    ensures RewardTxs(from, t, shares) == []
  {
    if shares != [] {
      NothingToPay(from, t, shares[..|shares|-1]);
    }
  }

  lemma {:induction false} NoReward(total: u64, winners: seq<Winner>)
    requires total > 0
    ensures forall i :: 0 <= i < |winners| ==> Distribute(0, total, winners)[i].amount == 0
  {
    hide SortBy;
    var shares := FloorShares(0, total, winners);
    forall i | 0 <= i < |winners| ensures shares[i].amount == 0 {
      assert SatMul(0, winners[i].weight) == 0;
    }
    NoFloors(shares);
  }

  lemma {:induction false} NoFloors(shares: seq<Share>)
    requires forall i :: 0 <= i < |shares| ==> shares[i].amount == 0
    ensures WrappedSum(shares) == 0
  {
    if shares != [] {
      NoFloors(shares[..|shares|-1]);
    }
  }

  /** A settled task without a reward leaves ledger and fields alone. */
  lemma TurnUnpaid(s: NetState, w: ParticipantId, t: TaskId, reports: seq<TaskReport>)
    requires Desk(s, t, 0, reports) && w in s.participants && !Reported(s.tasks[t], w) && AllVouch(reports)
    requires ConsensusDigest(s.participants, reports + [Vouch(w)], 2) == Some("x")
    requires WrappedWeight(Payees(s.participants, reports + [Vouch(w)])) > 0
    ensures var r := Turn(s, w, t);
      && Quiet(r, []) && r.nextTask == s.nextTask && r.participants == Praised(s.participants, reports + [Vouch(w)])
      && r.projects == s.projects && r.Txs() == s.Txs()
  {
    hide ConsensusDigest, Turn, Reported, Distribute, RewardTxs, Flatten, Payees, Praised;
    TurnDecided(s, w, t, 0, reports);
    var winners := Payees(s.participants, reports + [Vouch(w)]);
    NoReward(WrappedWeight(winners), winners);
    NothingToPay(ProjectAddress(1), t, Distribute(0, WrappedWeight(winners), winners));
    assert s.projects[1 := s.projects[1]] == s.projects;
  }

  // ---------------------------------------------------------------- running weights

  /** Weights of the reporters, in order. */
  ghost predicate Weigh(ps: map<ParticipantId, Participant>, reports: seq<TaskReport>, weights: seq<u64>) {
    |reports| == |weights| && AllVouch(reports)
    && forall i :: 0 <= i < |reports| ==> WeightOf(ps, reports[i].workerId) == weights[i]
  }

  function Running(weights: seq<u64>): u64 {
    if weights == [] then 0 else Add(Running(weights[..|weights|-1]), weights[|weights|-1])
  }

  lemma {:induction false} RunningIs(ps: map<ParticipantId, Participant>, reports: seq<TaskReport>, weights: seq<u64>)
    requires Weigh(ps, reports, weights)
    ensures RunningWeight(ps, reports, "x") == Running(weights)
    ensures WrappedWeight(Payees(ps, reports)) == Running(weights)
  {
    hide Payees, WrappedWeight, WeightOf;
    if reports == [] {
      NoPayees(ps);
    }
    if reports != [] {
      var init := reports[..|reports|-1];
      RunningIs(ps, init, weights[..|weights|-1]);
      PayeesInit(ps, reports);
      WeightSnoc(Payees(ps, init), Winner(reports[|reports|-1].workerId, weights[|reports|-1]));
    }
  }

  lemma NoPayees(ps: map<ParticipantId, Participant>)
    ensures WrappedWeight(Payees(ps, [])) == 0
  {}

  lemma {:induction false} WeightSnoc(winners: seq<Winner>, w: Winner)
    ensures WrappedWeight(winners + [w]) == Add(WrappedWeight(winners), w.weight)
  {
    assert (winners + [w])[..|winners|] == winners;
  }

  lemma PayeesInit(ps: map<ParticipantId, Participant>, reports: seq<TaskReport>)
    requires reports != []
    ensures var w := reports[|reports|-1].workerId;
      Payees(ps, reports) == Payees(ps, reports[..|reports|-1]) + [Winner(w, WeightOf(ps, w))]
  {
    var init := reports[..|reports|-1];
    var ws := Reporters(reports);
    assert ws[..|ws|-1] == Reporters(init);
  }

  predicate Reaches(weights: seq<u64>, i: nat) {
    i < |weights| && Running(weights[..i+1]) >= 2
  }

  /** A digest all agree on is found exactly when some running weight reaches two. */
  lemma DigestFound(ps: map<ParticipantId, Participant>, reports: seq<TaskReport>, weights: seq<u64>)
    requires Weigh(ps, reports, weights)
    ensures ConsensusDigest(ps, reports, 2) == if exists i: nat :: Reaches(weights, i) then Some("x") else None
  {
    hide Running, RunningWeight, Payees;
    ConsensusFromFirst(ps, reports, 2, 0);
    forall i: nat | i < |reports|
      ensures reports[i].resultDigest == "x"
      ensures RunningWeight(ps, reports[..i+1], reports[i].resultDigest) >= 2 <==> Reaches(weights, i)
    {
      RunningIs(ps, reports[..i+1], weights[..i+1]);
    }
  }

  // ------------------------------------------------------------------------ the log

  function Opening(): seq<LedgerOp> {
    [RegisterParticipant(7, "", 0, 4), RegisterParticipant(8, "", 0, 0), RegisterParticipant(9, "", 0, 0),
     RegisterParticipant(10, "", 0, 0), RegisterParticipant(11, "", 0, 0), RegisterParticipant(12, "", 0, 0),
     CreateProject(7, "", None), FundProject(7, 1, 4)]
  }

  function Asks(w: ParticipantId, t: TaskId): seq<LedgerOp> {
    [RequestTask(w, 0), SubmitResult(w, t, "x", 0, None)]
  }

  function Offers(reward: u64): seq<LedgerOp> {
    [SubmitTask(7, 1, reward, "")]
  }

  /** Workers 8 and 9 settle the first task, 8 alone the second. */
  function PraiseLog(): seq<LedgerOp> {
    Opening() + Offers(0) + Asks(8, 1) + Asks(9, 1) + Offers(0) + Asks(8, 2)
  }

  /** Then 10 and 8 report on the third, */
  function MissLog(): seq<LedgerOp> {
    PraiseLog() + Offers(4) + Asks(10, 3) + Asks(8, 3)
  }

  /** and after them 11 and 12. */
  function OverpayLog(): seq<LedgerOp> {
    MissLog() + Asks(11, 3) + Asks(12, 3)
  }

  lemma {:induction false} AsksTurns(config: Config, ops: seq<LedgerOp>, w: ParticipantId, t: TaskId)
    ensures ApplyAll(Fresh(config), ops + Asks(w, t)) == Turn(ApplyAll(Fresh(config), ops), w, t)
  {
    hide Apply;
    assert ops + Asks(w, t) == ops + [RequestTask(w, 0)] + [SubmitResult(w, t, "x", 0, None)];
    OneMoreOp(Fresh(config), ops, RequestTask(w, 0));
    OneMoreOp(Fresh(config), ops + [RequestTask(w, 0)], SubmitResult(w, t, "x", 0, None));
  }

  function Person(id: ParticipantId, reputation: u64): Participant {
    Participant(id, "", reputation, Some(0))
  }

  /** Everyone involved, when 8 and 9 have reputations of their own. */
  function People(eight: u64, nine: u64): map<ParticipantId, Participant> {
    map[7 := Person(7, 1), 8 := Person(8, eight), 9 := Person(9, nine),
        10 := Person(10, 1), 11 := Person(11, 1), 12 := Person(12, 1)]
  }

  function Funds(): seq<Transaction> {
    [Mint(7, 4), Transfer(7, ProjectAddress(1), 4, FundMemo(1))]
  }

  /** Nothing in progress, before task `next`. */
  ghost predicate Between(s: NetState, eight: u64, nine: u64, next: TaskId) {
    && Quiet(s, []) && s.participants == People(eight, nine) && s.nextTask == next && s.Txs() == Funds()
    && s.projects[1].quotaAvailable == 4 && s.projects[1].quotaLocked == 0
  }

  lemma FirstSix(s: NetState)
    requires s == Fresh(STEEP)
    ensures var l := Opening();
      var r := Apply(Apply(Apply(Apply(Apply(Apply(s, l[0]), l[1]), l[2]), l[3]), l[4]), l[5]);
      r == s.(participants := People(1, 1), ledger := [Entry(0, []), Entry(0, [Mint(7, 4)])])
  {}

  lemma OpeningLedger()
    ensures Flatten([Entry(0, []), Entry(0, [Mint(7, 4)])]) == [Mint(7, 4)]
    ensures Balance([Mint(7, 4)], 7) == 4
    ensures Flatten([Entry(0, []), Entry(0, [Mint(7, 4)]), Entry(0, [Funds()[1]])]) == Funds()
  {
    hide FundMemo;
    var mint := [Entry(0, []), Entry(0, [Mint(7, 4)])];
    assert mint[..1] == [Entry(0, [])] && mint[..1][..0] == [];
    RawOne(Mint(7, 4), 7);
    FlattenAppend(mint, Entry(0, [Funds()[1]]));
    assert mint + [Entry(0, [Funds()[1]])] == [Entry(0, []), Entry(0, [Mint(7, 4)]), Entry(0, [Funds()[1]])];
    assert [Mint(7, 4)] + [Funds()[1]] == Funds();
  }

  lemma OpenedThen(s: NetState)
    requires s == Fresh(STEEP).(participants := People(1, 1), ledger := [Entry(0, []), Entry(0, [Mint(7, 4)])])
    ensures Between(Apply(Apply(s, CreateProject(7, "", None)), FundProject(7, 1, 4)), 1, 1, 1)
  {
    hide Flatten, Balance, FundMemo;
    OpeningLedger();
    var owned := Apply(s, CreateProject(7, "", None));
    assert owned.Txs() == [Mint(7, 4)];
    var r := Apply(owned, FundProject(7, 1, 4));
    assert r.ledger == [Entry(0, []), Entry(0, [Mint(7, 4)]), Entry(0, [Funds()[1]])];
  }

  lemma Opened()
    ensures Between(ApplyAll(Fresh(STEEP), Opening()), 1, 1, 1)
  {
    hide Apply, Between, People;
    var l := Opening();
    var s := Fresh(STEEP);
    assert l == l[..6] + [CreateProject(7, "", None)] + [FundProject(7, 1, 4)];
    SixOps(s, l[..6]);
    FirstSix(s);
    OneMoreOp(s, l[..6], CreateProject(7, "", None));
    OneMoreOp(s, l[..6] + [CreateProject(7, "", None)], FundProject(7, 1, 4));
    OpenedThen(Apply(Apply(Apply(Apply(Apply(Apply(s, l[0]), l[1]), l[2]), l[3]), l[4]), l[5]));
  }

  // ------------------------------------------------------------------- its progress

  lemma Weights1(w: u64)
    ensures Running([w]) == w && (w < 2 ==> forall i: nat :: !Reaches([w], i)) && (w >= 2 ==> Reaches([w], 0))
  {
    assert [w][..0] == [] && [w][..1] == [w];
  }

  lemma Weights2(v: u64, w: u64)
    ensures Running([v, w]) == Add(v, w)
    ensures v < 2 && Add(v, w) < 2 ==> forall i: nat :: !Reaches([v, w], i)
    ensures Add(v, w) >= 2 ==> Reaches([v, w], 1)
  {
    Weights1(v);
    assert [v, w][..1] == [v] && [v, w][..2] == [v, w];
  }

  /** Vouchers on a desk and what their votes weigh. */
  lemma Weighed(ps: map<ParticipantId, Participant>, ws: seq<ParticipantId>, reports: seq<TaskReport>,
      weights: seq<u64>)
    requires |ws| == |reports| == |weights|
    requires forall i :: 0 <= i < |ws| ==> reports[i] == Vouch(ws[i]) && WeightOf(ps, ws[i]) == weights[i]
    ensures Weigh(ps, reports, weights)
  {}

  lemma PraiseTwo()
    ensures Praised(People(1, 1), [Vouch(8), Vouch(9)]) == People(HALF, HALF)
  {
    var both := [Vouch(8), Vouch(9)];
    assert both[..1] == [Vouch(8)] && both[..1][..0] == [];
    assert Reporters(both[..1]) == [8] && Reporters(both) == [8, 9];
    assert [8, 9][..1] == [8] && [8][..0] == [];
    assert AdjustEach(People(1, 1), [8], HALF - 1) == People(HALF, 1);
  }

  lemma OnePraised(ps: map<ParticipantId, Participant>, w: ParticipantId)
    ensures Praised(ps, [Vouch(w)]) == Adjust(ps, w, HALF - 1)
  {
    hide Adjust;
    assert [Vouch(w)][..0] == [] && [w][..0] == [];
    assert Reporters([Vouch(w)]) == [w];
    assert AdjustEach(ps, [], HALF - 1) == ps;
  }

  lemma PraiseOne()
    ensures Praised(People(HALF, HALF), [Vouch(8)]) == People(MAX, HALF)
  {
    hide Praised;
    OnePraised(People(HALF, HALF), 8);
    assert People(HALF, HALF)[8].(reputation := MAX) == Person(8, MAX);
  }

  /** First task: 8, then 9. */
  lemma FirstTask(s: NetState)
    requires Between(s, 1, 1, 1)
    ensures Between(Turn(Turn(Apply(s, SubmitTask(7, 1, 0, "")), 8, 1), 9, 1), HALF, HALF, 2)
  {
    hide Apply, Turn, ConsensusDigest, Flatten, Funds, Running, Payees, Praised, WrappedWeight;
    Offer(s, 0);
    var offered := Apply(s, SubmitTask(7, 1, 0, ""));
    var ps := People(1, 1);
    Weights1(1);
    Weighed(ps, [8], [Vouch(8)], [1]);
    DigestFound(ps, [Vouch(8)], [1]);
    assert [] + [Vouch(8)] == [Vouch(8)];
    TurnUndecided(offered, 8, 1, 0, []);
    var once := Turn(offered, 8, 1);
    Weights2(1, 1);
    Weighed(ps, [8, 9], [Vouch(8), Vouch(9)], [1, 1]);
    DigestFound(ps, [Vouch(8), Vouch(9)], [1, 1]);
    RunningIs(ps, [Vouch(8), Vouch(9)], [1, 1]);
    assert [Vouch(8)] + [Vouch(9)] == [Vouch(8), Vouch(9)];
    TurnUnpaid(once, 9, 1, [Vouch(8)]);
    PraiseTwo();
  }

  /** Second task: 8 alone. */
  lemma SecondTask(s: NetState)
    requires Between(s, HALF, HALF, 2)
    ensures Between(Turn(Apply(s, SubmitTask(7, 1, 0, "")), 8, 2), MAX, HALF, 3)
  {
    hide Apply, Turn, ConsensusDigest, Flatten, Funds, Running, Payees, Praised, WrappedWeight;
    Offer(s, 0);
    var ps := People(HALF, HALF);
    Weights1(HALF);
    Weighed(ps, [8], [Vouch(8)], [HALF]);
    DigestFound(ps, [Vouch(8)], [HALF]);
    RunningIs(ps, [Vouch(8)], [HALF]);
    assert [] + [Vouch(8)] == [Vouch(8)];
    TurnUnpaid(Apply(s, SubmitTask(7, 1, 0, "")), 8, 2, []);
    PraiseOne();
  }

  /** Third task: 10 and 8 report, and nothing comes of it. */
  lemma ThirdTask(s: NetState)
    requires Between(s, MAX, HALF, 3)
    ensures var r := Turn(Turn(Apply(s, SubmitTask(7, 1, 4, "")), 10, 3), 8, 3);
      Desk(r, 3, 4, [Vouch(10), Vouch(8)]) && r.participants == People(MAX, HALF) && r.Txs() == Funds()
  {
    hide Apply, Turn, ConsensusDigest, Flatten, Funds, Running;
    Offer(s, 4);
    var ps := People(MAX, HALF);
    Weights1(1);
    Weighed(ps, [10], [Vouch(10)], [1]);
    DigestFound(ps, [Vouch(10)], [1]);
    assert [] + [Vouch(10)] == [Vouch(10)];
    var offered := Apply(s, SubmitTask(7, 1, 4, ""));
    assert offered.Txs() == s.Txs();
    TurnUndecided(offered, 10, 3, 4, []);
    var once := Turn(offered, 10, 3);
    Weights2(1, MAX);
    Weighed(ps, [10, 8], [Vouch(10), Vouch(8)], [1, MAX]);
    DigestFound(ps, [Vouch(10), Vouch(8)], [1, MAX]);
    assert [Vouch(10)] + [Vouch(8)] == [Vouch(10), Vouch(8)];
    TurnUndecided(once, 8, 3, 4, [Vouch(10)]);
  }

  lemma Praised3()
    ensures Between(ApplyAll(Fresh(STEEP), PraiseLog()), MAX, HALF, 3)
  {
    hide Apply, Turn, Between, Opening, Asks;
    var s := Fresh(STEEP);
    Opened();
    OneMoreOp(s, Opening(), SubmitTask(7, 1, 0, ""));
    AsksTurns(STEEP, Opening() + Offers(0), 8, 1);
    AsksTurns(STEEP, Opening() + Offers(0) + Asks(8, 1), 9, 1);
    FirstTask(ApplyAll(s, Opening()));
    var first := Opening() + Offers(0) + Asks(8, 1) + Asks(9, 1);
    OneMoreOp(s, first, SubmitTask(7, 1, 0, ""));
    AsksTurns(STEEP, first + Offers(0), 8, 2);
    SecondTask(ApplyAll(s, first));
  }

  lemma Missed3()
    ensures var r := ApplyAll(Fresh(STEEP), MissLog());
      Desk(r, 3, 4, [Vouch(10), Vouch(8)]) && r.participants == People(MAX, HALF) && r.Txs() == Funds()
  {
    hide Apply, Turn, Between, PraiseLog, Asks, Desk, People, Funds;
    Praised3();
    OneMoreOp(Fresh(STEEP), PraiseLog(), SubmitTask(7, 1, 4, ""));
    AsksTurns(STEEP, PraiseLog() + Offers(4), 10, 3);
    AsksTurns(STEEP, PraiseLog() + Offers(4) + Asks(10, 3), 8, 3);
    ThirdTask(ApplyAll(Fresh(STEEP), PraiseLog()));
  }

  /** The task is still pending although its digest has more than the support it
      needs: the running weight has wrapped to zero. */
  lemma MissedInRun()
    ensures var s := ApplyAll(Fresh(STEEP), MissLog());
      && 3 in s.tasks && s.tasks[3].status.Pending?
      && Support(s.participants, s.tasks[3].reports, "x") > MAX > s.tasks[3].weightRequired
  {
    hide ApplyAll, MissLog, Funds, Flatten;
    Missed3();
    var reports := [Vouch(10), Vouch(8)];
    assert reports[..1] == [Vouch(10)] && reports[..1][..0] == [];
    assert Support(People(MAX, HALF), reports[..1], "x") == 1;
  }

  // ---------------------------------------------------------------- the overpayment

  function Four(): seq<TaskReport> {
    [Vouch(10), Vouch(8), Vouch(11), Vouch(12)]
  }

  lemma FourWeights()
    ensures Running([1, MAX, 1]) == 1 && Running([1, MAX, 1, 1]) == 2
    ensures forall i: nat :: !Reaches([1, MAX, 1], i)
    ensures Reaches([1, MAX, 1, 1], 3)
  {
    Weights1(1);
    Weights2(1, MAX);
    var three: seq<u64>, four: seq<u64> := [1, MAX, 1], [1, MAX, 1, 1];
    assert three[..1] == [1] && three[..2] == [1, MAX] && three[..3] == three;
    assert four[..3] == three && four[..4] == four;
  }

  lemma FourPayees()
    ensures Payees(People(MAX, HALF), Four()) == [Winner(10, 1), Winner(8, MAX), Winner(11, 1), Winner(12, 1)]
  {
    var ps := People(MAX, HALF);
    var l := Four();
    PayeesInit(ps, l);
    assert l[..3] == [Vouch(10), Vouch(8), Vouch(11)];
    PayeesInit(ps, l[..3]);
    assert l[..3][..2] == [Vouch(10), Vouch(8)];
    PayeesInit(ps, l[..3][..2]);
    assert l[..3][..2][..1] == [Vouch(10)];
    PayeesInit(ps, [Vouch(10)]);
    assert [Vouch(10)][..0] == [];
  }

  /** Floor shares with the divisor two: worker 8 alone gets almost half the range. */
  lemma FourShares()
    ensures var winners := [Winner(10, 1), Winner(8, MAX), Winner(11, 1), Winner(12, 1)];
      PaidTo(Distribute(4, 2, winners), 8) == HALF - 1
  {
    hide SortBy;
    var winners := [Winner(10, 1), Winner(8, MAX), Winner(11, 1), Winner(12, 1)];
    var shares := FloorShares(4, 2, winners);
    assert 4 * MAX >= LIMIT;
    assert shares == [Share(10, 2), Share(8, HALF - 1), Share(11, 2), Share(12, 2)];
    assert shares[..1] == [Share(10, 2)] && shares[..1][..0] == [];
    assert shares[..2] == [Share(10, 2), Share(8, HALF - 1)] && shares[..2][..1] == shares[..1];
    assert shares[..3] == [Share(10, 2), Share(8, HALF - 1), Share(11, 2)] && shares[..3][..2] == shares[..2];
    assert WrappedSum(shares[..1]) == 2 && WrappedSum(shares[..2]) == HALF + 1 && WrappedSum(shares[..3]) == HALF + 3;
    assert WrappedSum(shares) == HALF + 5;
    assert Distribute(4, 2, winners) == shares;
    assert PaidTo(shares[..1], 8) == 0 && PaidTo(shares[..2], 8) == HALF - 1;
    assert PaidTo(shares[..3], 8) == HALF - 1;
  }

  lemma {:induction false} RewardsMintNothing(txs: seq<Transaction>, from: Address, t: TaskId, shares: seq<Share>)
    ensures Minted(txs + RewardTxs(from, t, shares)) == Minted(txs)
  {
    MintedConcat(txs, RewardTxs(from, t, shares));
    RewardsAreTransfers(from, t, shares);
  }

  lemma {:induction false} RewardsAreTransfers(from: Address, t: TaskId, shares: seq<Share>)
    ensures Minted(RewardTxs(from, t, shares)) == 0
  {
    if shares != [] {
      var init, last := shares[..|shares|-1], shares[|shares|-1];
      RewardsAreTransfers(from, t, init);
      if last.amount > 0 {
        var tx := Transfer(from, last.id, last.amount, RewardMemo(t));
        MintedConcat(RewardTxs(from, t, init), [tx]);
        MintedOne(tx);
      }
    }
  }

  lemma FundsOfEight()
    ensures Raw(Funds(), 8) == 0 && Minted(Funds()) == 4
  {
    hide FundMemo;
    var l := Funds();
    assert l[..1] == [Mint(7, 4)];
    RawOne(Mint(7, 4), 8);
    MintedOne(Mint(7, 4));
  }

  /** Reports of 11 and 12 bring the running weight back to two, which settles the task
      with that as the divisor. */
  lemma LastTurns(s: NetState)
    requires Desk(s, 3, 4, [Vouch(10), Vouch(8)]) && s.participants == People(MAX, HALF) && s.Txs() == Funds()
    ensures var r := Turn(Turn(s, 11, 3), 12, 3);
      var winners := [Winner(10, 1), Winner(8, MAX), Winner(11, 1), Winner(12, 1)];
      r.Txs() == Funds() + RewardTxs(ProjectAddress(1), 3, Distribute(4, 2, winners))
  {
    hide Turn, ConsensusDigest, Flatten, Funds, Running, Payees, Praised, WrappedWeight, Distribute, RewardTxs;
    var ps := People(MAX, HALF);
    FourWeights();
    FourPayees();
    var three := [Vouch(10), Vouch(8), Vouch(11)];
    Weighed(ps, [10, 8, 11], three, [1, MAX, 1]);
    DigestFound(ps, three, [1, MAX, 1]);
    assert [Vouch(10), Vouch(8)] + [Vouch(11)] == three;
    TurnUndecided(s, 11, 3, 4, [Vouch(10), Vouch(8)]);
    var once := Turn(s, 11, 3);
    assert once.Txs() == s.Txs();
    Weighed(ps, [10, 8, 11, 12], Four(), [1, MAX, 1, 1]);
    DigestFound(ps, Four(), [1, MAX, 1, 1]);
    RunningIs(ps, Four(), [1, MAX, 1, 1]);
    assert three + [Vouch(12)] == Four();
    TurnDecided(once, 12, 3, 4, three);
  }

  /** Worker 8 ends with more tokens than were ever minted. */
  lemma OverpaidInRun()
    ensures var s := ApplyAll(Fresh(STEEP), OverpayLog());
      Minted(s.Txs()) == 4 && s.BalanceOf(8) == HALF - 1
  {
    hide Apply, ApplyAll, Turn, MissLog, Asks, Desk, People, Funds, Flatten, Distribute, RewardTxs, Raw, PaidTo;
    Missed3();
    AsksTurns(STEEP, MissLog(), 11, 3);
    AsksTurns(STEEP, MissLog() + Asks(11, 3), 12, 3);
    LastTurns(ApplyAll(Fresh(STEEP), MissLog()));
    var shares := Distribute(4, 2, [Winner(10, 1), Winner(8, MAX), Winner(11, 1), Winner(12, 1)]);
    RewardsMintNothing(Funds(), ProjectAddress(1), 3, shares);
    FundsOfEight();
    FourShares();
    RewardFlow(Funds(), ProjectAddress(1), 3, shares, 8);
    WrapAtMost(HALF - 1);
  }
}
