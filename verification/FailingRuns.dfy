/** Literal operation logs, run from a fresh replica, for the promises that do not
    hold without their conditions. */
module FailingRuns {
  import opened Words
  import opened Sequences
  import opened Ledger
  import opened Model
  import opened NetworkSpec
  import opened TaskInvariants
  import opened QuotaInvariants
  import opened QuotaRuns
  import opened Solvency
  import opened Books

  const QUORUM_ONE: Config := DEFAULT_CONFIG.(consensusQuorum := 1)

  lemma {:induction false} OneMoreOp(s: NetState, ops: seq<LedgerOp>, op: LedgerOp)
    ensures ApplyAll(s, ops + [op]) == Apply(ApplyAll(s, ops), op)
  {
    assert (ops + [op])[..|ops|] == ops;
  }

  /** A replica after its first registrations and the creation of a project. */
  function Owned(config: Config, participants: map<ParticipantId, Participant>, ledger: seq<Entry>): NetState {
    NetState(participants, map[1 := Project(1, 7, "", 0, 0, None)], map[], [], map[], 0, config, 2, 1, ledger)
  }

  function FreeTask(config: Config, t: TaskId): Task {
    Task(t, 1, 0, "", Max(config.consensusQuorum, 1), MaxReports(config), [], Pending, None)
  }

  lemma SubmitFree(s: NetState)
    requires s.projects == map[1 := Project(1, 7, "", 0, 0, None)]
    ensures Apply(s, SubmitTask(7, 1, 0, "")) ==
      s.(nextTask := s.nextTask + 1, tasks := s.tasks[s.nextTask := FreeTask(s.config, s.nextTask)],
         pending := Enqueue(s.pending, s.nextTask))
  {
    assert s.projects[1 := Project(1, 7, "", 0, 0, None)] == s.projects;
  }

  ghost predicate AllFree(s: NetState, t: TaskId) {
    && s.projects == map[1 := Project(1, 7, "", 0, 0, None)]
    && forall u :: u in s.pending ==> t <= u && u in s.tasks && s.tasks[u] == FreeTask(s.config, u)
  }

  lemma {:induction false} FirstOfEquals(s: NetState, t: TaskId, rest: seq<TaskId>)
    requires |rest| <= 1 && s.pending == [t] + rest && t !in rest && AllFree(s, t)
    ensures BestTask(s, 7, s.pending) == Some(t) && Without(s.pending, t) == rest
  {
    assert [t][..0] == [];
    assert t in s.pending;
    assert BestTask(s, 7, [t]) == Some(t);
    assert Without([t], t) == [];
    if rest == [] {
      assert s.pending == [t];
    } else {
      assert s.pending == [t, rest[0]] && s.pending[..1] == [t];
      assert rest[0] in s.pending;
    }
  }

  /** A request where free tasks of the same standing wait: the first is assigned. */
  lemma RequestFree(s: NetState, t: TaskId, rest: seq<TaskId>, nonce: u64)
    requires 7 in s.participants && Unexpired(s)
    requires |rest| <= 1 && s.pending == [t] + rest && t !in rest && AllFree(s, t)
    ensures t in s.tasks
    ensures var expires := Add(s.now, s.config.leaseTimeoutTicks);
      Apply(s, RequestTask(7, nonce)) ==
        s.(pending := rest, leases := s.leases[t := Lease(7, expires)],
           tasks := s.tasks[t := s.tasks[t].(status := Assigned(7, expires))])
  {
    hide Reclaim, BestTask, Without;
    ReclaimIdle(s);
    FirstOfEquals(s, t, rest);
    assert t in s.pending;
  }

  // ---------------------------------------------------------------- two leases

  /** Worker 7, with one token, takes both of its project's tasks. */
  function TwoLeaseLog(): seq<LedgerOp> {
    [RegisterParticipant(7, "", 0, 1), CreateProject(7, "", None), SubmitTask(7, 1, 0, ""), SubmitTask(7, 1, 0, ""),
     RequestTask(7, 0), RequestTask(7, 1)]
  }

  function TwoLeaseState(): NetState {
    var task1 := FreeTask(QUORUM_ONE, 1).(status := Assigned(7, 3));
    var task2 := FreeTask(QUORUM_ONE, 2).(status := Assigned(7, 3));
    NetState(map[7 := Participant(7, "", 1, Some(0))], map[1 := Project(1, 7, "", 0, 0, None)],
             map[1 := task1, 2 := task2], [], map[1 := Lease(7, 3), 2 := Lease(7, 3)],
             0, QUORUM_ONE, 2, 3, [Entry(0, []), Entry(0, [Mint(7, 1)])])
  }

  lemma TwoLeaseRun()
    ensures ApplyAll(Fresh(QUORUM_ONE), TwoLeaseLog()) == TwoLeaseState()
  {
    hide Request, Reclaim, NewTask;
    var l := TwoLeaseLog();
    var s0 := Fresh(QUORUM_ONE);
    var s1 := Apply(s0, l[0]);
    var s2 := Apply(s1, l[1]);
    assert s2 == Owned(QUORUM_ONE, map[7 := Participant(7, "", 1, Some(0))], [Entry(0, []), Entry(0, [Mint(7, 1)])]);
    SubmitFree(s2);
    var s3 := Apply(s2, l[2]);
    SubmitFree(s3);
    var s4 := Apply(s3, l[3]);
    assert s4.pending == [1] + [2];
    RequestFree(s4, 1, [2], 0);
    var s5 := Apply(s4, l[4]);
    assert s5.pending == [2] + [];
    RequestFree(s5, 2, [], 1);
    assert Apply(s5, l[5]) == TwoLeaseState();
    SixOps(s0, l);
  }

  lemma {:induction false} SixOps(s: NetState, l: seq<LedgerOp>)
    requires |l| == 6
    ensures ApplyAll(s, l) == Apply(Apply(Apply(Apply(Apply(Apply(s, l[0]), l[1]), l[2]), l[3]), l[4]), l[5])
  {
    hide Apply;
    assert l == [] + [l[0]] + [l[1]] + [l[2]] + [l[3]] + [l[4]] + [l[5]];
    OneMoreOp(s, [], l[0]);
    OneMoreOp(s, [] + [l[0]], l[1]);
    OneMoreOp(s, [] + [l[0]] + [l[1]], l[2]);
    OneMoreOp(s, [] + [l[0]] + [l[1]] + [l[2]], l[3]);
    OneMoreOp(s, [] + [l[0]] + [l[1]] + [l[2]] + [l[3]], l[4]);
    OneMoreOp(s, [] + [l[0]] + [l[1]] + [l[2]] + [l[3]] + [l[4]], l[5]);
  }

  /** Two leases lost at once and one token: the account goes one below zero,
      though `balance_of` still reports zero. */
  lemma TwoLeasesOverdraw()
    ensures var before := ApplyAll(Fresh(QUORUM_ONE), TwoLeaseLog());
      NonNegative(before.Txs()) && before.BalanceOf(7) == 1
    ensures var after := ApplyAll(Fresh(QUORUM_ONE), TwoLeaseLog() + [Tick(3)]);
      Raw(after.Txs(), 7) == -1 && after.BalanceOf(7) == 0
  {
    hide ApplyAll, Reclaim, Consistent, NonNegative, Raw, Held, TwoLeaseLog, Flatten;
    TwoLeaseRun();
    TwoLeaseBalances();
    OneMoreOp(Fresh(QUORUM_ONE), TwoLeaseLog(), Tick(3));
    ReachableConsistent(QUORUM_ONE, TwoLeaseLog());
    SameTasksKept(TwoLeaseState(), TwoLeaseState().(now := 3));
    DueTwice(TwoLeaseState().(now := 3));
  }

  lemma DueTwice(due: NetState)
    requires Consistent(due) && due.leases == map[1 := Lease(7, 3), 2 := Lease(7, 3)] && due.now == 3
    requires due.config.leaseSlash == 1 && due.BalanceOf(7) == 1 && Raw(due.Txs(), 7) == 1
    ensures Raw(Reclaim(due).Txs(), 7) == -1 && Reclaim(due).BalanceOf(7) == 0
  {
    hide Reclaim, Consistent, Raw, Held, Flatten, ExpiredIds;
    ExpiredIdsProperties(due);
    BothDue(due, ExpiredIds(due));
    ReclaimTakes(due, 7);
    assert SlashPerLease(due, 7) == 1;
  }

  lemma TwoLeaseBalances()
    ensures NonNegative(TwoLeaseState().Txs()) && Raw(TwoLeaseState().Txs(), 7) == 1
    ensures TwoLeaseState().BalanceOf(7) == 1
  {
    var l := TwoLeaseState().ledger;
    assert l[..1] == [Entry(0, [])] && l[..1][..0] == [];
    assert Flatten(l) == [Mint(7, 1)];
    forall a: Address ensures Raw([Mint(7, 1)], a) == if a == 7 then 1 else 0 {
      RawOne(Mint(7, 1), a);
    }
  }

  lemma {:induction false} BothDue(s: NetState, ids: seq<TaskId>)
    requires s.leases == map[1 := Lease(7, 3), 2 := Lease(7, 3)]
    requires Distinct(ids) && SortedBy(ids, Itself) && forall t :: t in ids <==> t in s.leases
    ensures Held(s, ids, 7) == 2
  {
    assert 1 in ids && 2 in ids;
    assert forall x :: x in ids <==> x in [1, 2];
    SameSetSameMultiset(ids, [1, 2]);
    SortedUnique(ids, [1, 2]);
    HeldBoth(s);
  }

  lemma {:induction false} HeldBoth(s: NetState)
    requires s.leases == map[1 := Lease(7, 3), 2 := Lease(7, 3)]
    ensures Held(s, [1, 2], 7) == 2
  {
    assert [1, 2][..1] == [1] && [1][..0] == [];
    assert Held(s, [1], 7) == 1;
  }

  // ---------------------------------------------------------- end of the clock

  /** Worker 7 is given a task two ticks before the clock's last. */
  function ClockEndLog(): seq<LedgerOp> {
    [RegisterParticipant(7, "", 0, 0), RegisterParticipant(8, "", 0, 0), CreateProject(7, "", None),
     SubmitTask(7, 1, 0, ""), Tick(MAX - 2), RequestTask(7, 0)]
  }

  lemma ClockEndRun()
    ensures var s := ApplyAll(Fresh(DEFAULT_CONFIG), ClockEndLog());
      8 in s.participants && s.now == MAX - 2 && s.leases == map[1 := Lease(7, 0)]
  {
    hide Request, Reclaim, NewTask;
    var l := ClockEndLog();
    var s0 := Fresh(DEFAULT_CONFIG);
    var s3 := Apply(Apply(Apply(s0, l[0]), l[1]), l[2]);
    var both := map[7 := Participant(7, "", 1, Some(0)), 8 := Participant(8, "", 1, Some(0))];
    assert s3 == Owned(DEFAULT_CONFIG, both, [Entry(0, [])]);
    SubmitFree(s3);
    var s4 := Apply(s3, l[3]);
    ReclaimIdle(s4.(now := MAX - 2));
    var s5 := Apply(s4, l[4]);
    assert s5 == s4.(now := MAX - 2);
    assert s5.pending == [1] + [];
    RequestFree(s5, 1, [], 0);
    SixOps(s0, l);
  }

  /** There an operation that fails does change the state: the lease granted has
      already expired, so the report of worker 8, who never had it, reclaims it. */
  lemma FailureAtClockEnd()
    ensures var s := ApplyAll(Fresh(DEFAULT_CONFIG), ClockEndLog());
      var op := SubmitResult(8, 1, "", 0, None);
      !Succeeds(s, op) && Apply(s, op) != s
  {
    hide Apply, ApplyAll, Consistent;
    ClockEndRun();
    ReachableConsistent(DEFAULT_CONFIG, ClockEndLog());
    var s := ApplyAll(Fresh(DEFAULT_CONFIG), ClockEndLog());
    StrangerFails(s, 8, 1, "", 0, None);
    assert 1 in s.leases;
    FailureExactly(s, SubmitResult(8, 1, "", 0, None));
  }

  // -------------------------------------------------------- a project's account

  /** An account is registered at the address of the project to come. */
  function EarlyMintLog(): seq<LedgerOp> {
    [RegisterParticipant(7, "", 0, 0), RegisterParticipant(ProjectAddress(1), "", 0, 5)]
  }

  /** Fields and balances are in step while there is no project, and no longer once
      the first one is created. */
  lemma EarlyMintUnbacks()
    ensures Backed(ApplyAll(Fresh(QUORUM_ONE), EarlyMintLog()))
    ensures !Backed(ApplyAll(Fresh(QUORUM_ONE), EarlyMintLog() + [CreateProject(7, "", None)]))
  {
    var s0 := Fresh(QUORUM_ONE);
    var a := ProjectAddress(1);
    var l := EarlyMintLog();
    assert l == [] + [l[0]] + [l[1]];
    OneMoreOp(s0, [], l[0]);
    OneMoreOp(s0, [] + [l[0]], l[1]);
    var s := ApplyAll(s0, l);
    assert s.projects == map[] && s.nextProject == 1 && s.ledger == [Entry(0, []), Entry(0, [Mint(a, 5)])];
    assert s.ledger[..1] == [Entry(0, [])] && s.ledger[..1][..0] == [];
    assert s.Txs() == [Mint(a, 5)];
    RawOne(Mint(a, 5), a);
    ReachableConsistent(QUORUM_ONE, l);
    OneMoreOp(s0, l, CreateProject(7, "", None));
    NewProjectKeepsBackedExactly(s, 7, "", None);
  }

  // ------------------------------------------------------ a donor at such an account

  /** The address of the second project is registered, without a token, before there
      is any project; the first project's owner then funds it. */
  function DonorLog(): seq<LedgerOp> {
    [RegisterParticipant(7, "", 0, 5), RegisterParticipant(ProjectAddress(1), "", 0, 0),
     CreateProject(7, "", None), CreateProject(7, "", None), FundProject(7, 1, 5)]
  }

  function DonorState(): NetState {
    var a := ProjectAddress(1);
    NetState(map[7 := Participant(7, "", 1, Some(0)), a := Participant(a, "", 1, Some(0))],
             map[1 := Project(1, 7, "", 5, 0, None), 2 := Project(2, 7, "", 0, 0, None)],
             map[], [], map[], 0, QUORUM_ONE, 3, 1,
             [Entry(0, []), Entry(0, [Mint(7, 5)]), Entry(0, [Transfer(7, a, 5, FundMemo(1))])])
  }

  lemma {:induction false} FiveOps(s: NetState, l: seq<LedgerOp>)
    requires |l| == 5
    ensures ApplyAll(s, l) == Apply(Apply(Apply(Apply(Apply(s, l[0]), l[1]), l[2]), l[3]), l[4])
  {
    hide Apply;
    assert l == [] + [l[0]] + [l[1]] + [l[2]] + [l[3]] + [l[4]];
    OneMoreOp(s, [], l[0]);
    OneMoreOp(s, [] + [l[0]], l[1]);
    OneMoreOp(s, [] + [l[0]] + [l[1]], l[2]);
    OneMoreOp(s, [] + [l[0]] + [l[1]] + [l[2]], l[3]);
    OneMoreOp(s, [] + [l[0]] + [l[1]] + [l[2]] + [l[3]], l[4]);
  }

  /** What is on record while tokens move from 7 to the first project's account. */
  lemma DonorLedger()
    ensures var mint := [Entry(0, []), Entry(0, [Mint(7, 5)])]; Flatten(mint) == [Mint(7, 5)]
    ensures Balance([Mint(7, 5)], 7) == 5
    ensures DonorState().Txs() == [Mint(7, 5), Transfer(7, ProjectAddress(1), 5, FundMemo(1))]
    ensures forall a: Address :: Raw(DonorState().Txs(), a) == if a == ProjectAddress(1) then 5 else 0
  {
    hide FundMemo;
    var mint := [Entry(0, []), Entry(0, [Mint(7, 5)])];
    assert mint[..1] == [Entry(0, [])] && mint[..1][..0] == [];
    RawOne(Mint(7, 5), 7);
    var gift := Transfer(7, ProjectAddress(1), 5, FundMemo(1));
    assert DonorState().ledger == mint + [Entry(0, [gift])];
    FlattenAppend(mint, Entry(0, [gift]));
    assert [Mint(7, 5)] + [gift] == [Mint(7, 5), gift];
    forall a: Address ensures Raw([Mint(7, 5), gift], a) == if a == ProjectAddress(1) then 5 else 0 {
      RawConcat([Mint(7, 5)], [gift], a);
      RawOne(Mint(7, 5), a);
      RawOne(gift, a);
    }
  }

  lemma DonorRun()
    ensures ApplyAll(Fresh(QUORUM_ONE), DonorLog()) == DonorState()
  {
    hide Balance, Flatten, FundMemo;
    DonorLedger();
    var l := DonorLog();
    var s0 := Fresh(QUORUM_ONE);
    var s4 := Apply(Apply(Apply(Apply(s0, l[0]), l[1]), l[2]), l[3]);
    assert s4.ledger == [Entry(0, []), Entry(0, [Mint(7, 5)])];
    assert s4.Txs() == [Mint(7, 5)];
    assert s4.projects == map[1 := Project(1, 7, "", 0, 0, None), 2 := Project(2, 7, "", 0, 0, None)];
    var s5 := Apply(s4, l[4]);
    assert s5.projects == DonorState().projects;
    assert s5.ledger == DonorState().ledger;
    assert s5.participants == DonorState().participants;
    FiveOps(s0, l);
  }

  /** Books are in step after the log. Then the project's account donates what it was
      given, which no quota field notices. */
  lemma DonorUnbacks()
    ensures BackedAhead(ApplyAll(Fresh(QUORUM_ONE), DonorLog()))
    ensures var op := DonateToProject(ProjectAddress(1), 2, 5);
      Succeeds(ApplyAll(Fresh(QUORUM_ONE), DonorLog()), op) && !Backed(ApplyAll(Fresh(QUORUM_ONE), DonorLog() + [op]))
  {
    hide Flatten, Raw;
    DonorRun();
    DonorLedger();
    var s, a := DonorState(), ProjectAddress(1);
    assert s.BalanceOf(a) == 5;
    OneMoreOp(Fresh(QUORUM_ONE), DonorLog(), DonateToProject(a, 2, 5));
    DonationMoves(s, a, 2, 5);
    assert 1 in Donate(s, a, 2, 5).state.projects;
  }
}
