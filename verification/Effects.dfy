/** The answers and effects of the replica's operations, from their inputs: who may do
    what, what is recorded, which balances move, and what never changes. */
module Effects {
  import opened Words
  import opened Sequences
  import opened Ledger
  import opened Model
  import opened Reward
  import opened NetworkSpec
  import opened TaskInvariants
  import opened TaskOutcomes

  // ------------------------------------------------------------------- ownership

  /** Only a project's owner funds it by `FundProject`, which then is a donation; anyone
      else is told so and changes nothing. */
  lemma OnlyOwnersFund(s: NetState, who: ParticipantId, p: ProjectId, amount: u64)
    ensures Fund(s, who, p, amount) ==
      if p !in s.projects then Step(s, Err(ProjectNotFound(p)))
      else if s.projects[p].ownerId != who then Step(s, Err(NotTaskOwner(who, p)))
      else Donate(s, who, p, amount)
  {}

  /** Nor does anyone but the owner spend its quota. */
  lemma StrangersCannotSpend(s: NetState, who: ParticipantId, p: ProjectId, reward: u64, payload: string)
    requires p !in s.projects || s.projects[p].ownerId != who
    ensures NewTask(s, who, p, reward, payload) ==
      Step(s, Err(if p in s.projects then NotTaskOwner(who, p) else ProjectNotFound(p)))
  {}

  /** The owner does, up to what is available; the task then carries what was asked. */
  lemma OwnersSpend(s: NetState, p: ProjectId, reward: u64, payload: string)
    requires p in s.projects
    ensures var project := s.projects[p]; var r := NewTask(s, project.ownerId, p, reward, payload);
      if project.quotaAvailable < reward
      then r == Step(s, Err(NotEnoughProjectQuota(p, reward, project.quotaAvailable)))
      else
        && r.out == Ok(s.nextTask)
        && r.state.tasks.Keys == s.tasks.Keys + {s.nextTask}
        && (forall u :: u in s.tasks && u != s.nextTask ==> r.state.tasks[u] == s.tasks[u])
        && var task := r.state.tasks[s.nextTask];
        && task.id == s.nextTask && task.projectId == p && task.reward == reward && task.payload == payload
        && task.reports == [] && task.status.Pending? && task.encryptedResult.None?
        && task.weightRequired == (if s.config.consensusQuorum == 0 then 1 else s.config.consensusQuorum)
        && task.maxReports == (if s.config.maxReportsPerTask == 0 then 1 else s.config.maxReportsPerTask)
        && r.state.projects[p].quotaAvailable == project.quotaAvailable - reward
        && r.state.projects[p].quotaLocked ==
             project.quotaLocked + reward - (if project.quotaLocked + reward < LIMIT then 0 else LIMIT)
        && (s.nextTask !in s.pending ==> r.state.pending == s.pending + [s.nextTask])
        && r.state.nextTask == s.nextTask + 1 && r.state.ledger == s.ledger && r.state.participants == s.participants
        && r.state.leases == s.leases && r.state.now == s.now
        && r.state.projects.Keys == s.projects.Keys
        && forall q :: q in s.projects && q != p ==> r.state.projects[q] == s.projects[q]
  {}

  /** Donations are open to every participant that has the tokens. */
  lemma {:induction false} DonationsExactly(s: NetState, who: ParticipantId, p: ProjectId, amount: u64)
    ensures var r := Donate(s, who, p, amount);
      if who !in s.participants then r == Step(s, Err(ParticipantNotFound(who)))
      else if p !in s.projects then r == Step(s, Err(ProjectNotFound(p)))
      else if s.BalanceOf(who) < amount then r == Step(s, Err(NotEnoughBalance(who, amount, s.BalanceOf(who))))
      else
        && r.out == Ok(())
        && r.state.ledger == s.ledger
             + [Entry(s.now, [Transfer(who, 1_000_000_000 + p, amount, "fund:project=" + Decimal(p))])]
        && r.state.projects[p].quotaAvailable == s.projects[p].quotaAvailable + amount
             - (if s.projects[p].quotaAvailable + amount < LIMIT then 0 else LIMIT)
        && r.state.projects[p].quotaLocked == s.projects[p].quotaLocked
        && r.state.projects.Keys == s.projects.Keys
        && (forall q :: q in s.projects && q != p ==> r.state.projects[q] == s.projects[q])
        && r.state.participants == s.participants && r.state.tasks == s.tasks && r.state.leases == s.leases
  {}

  lemma TransfersExactly(s: NetState, from: ParticipantId, to: ParticipantId, amount: u64, memo: string)
    ensures var r := TransferBetween(s, from, to, amount, memo);
      if s.BalanceOf(from) < amount then r == Step(s, Err(NotEnoughBalance(from, amount, s.BalanceOf(from))))
      else r.out == Ok(()) && r.state == s.(ledger := s.ledger + [Entry(s.now, [Transfer(from, to, amount, memo)])])
  {}

  /** Registration is idempotent, newcomers start with reputation one, and projects are
      opened by participants only, with nothing in them. */
  lemma OpeningsExactly(s: NetState, id: ParticipantId, name: string, key: Key, balance: u64, projectKey: Option<Key>)
    ensures var r := Apply(s, RegisterParticipant(id, name, key, balance));
      if id in s.participants then r == s
      else
        && r.participants.Keys == s.participants.Keys + {id}
        && r.participants[id] == Participant(id, name, 1, Some(key))
        && (forall w :: w in s.participants ==> r.participants[w] == s.participants[w])
        && r.ledger == (if balance == 0 then s.ledger else s.ledger + [Entry(s.now, [Mint(id, balance)])])
        && r == s.(participants := r.participants, ledger := r.ledger)
    ensures var r := NewProject(s, id, name, projectKey);
      if id !in s.participants then r == Step(s, Err(ParticipantNotFound(id)))
      else
        && r.out == Ok(s.nextProject)
        && r.state.projects.Keys == s.projects.Keys + {s.nextProject}
        && r.state.projects[s.nextProject] == Project(s.nextProject, id, name, 0, 0, projectKey)
        && (forall q :: q in s.projects && q != s.nextProject ==> r.state.projects[q] == s.projects[q])
        && r.state == s.(projects := r.state.projects, nextProject := s.nextProject + 1)
  {}

  // ------------------------------------------------------------- what never changes

  ghost predicate SamePerson(a: Participant, b: Participant) {
    b == a.(reputation := b.reputation)
  }

  ghost predicate SameVenture(a: Project, b: Project) {
    b == a.(quotaAvailable := b.quotaAvailable, quotaLocked := b.quotaLocked)
  }

  /** But for status, reports and result a task stays what was submitted. */
  ghost predicate SameAssignment(a: Task, b: Task) {
    b == a.(status := b.status, reports := b.reports, encryptedResult := b.encryptedResult) && a.reports <= b.reports
  }

  /** People, projects and tasks are never removed, renamed or handed over; the
      configuration stays; the clock moves by ticks only, and stops at its end; and the
      ledger only grows, by entries of the present tick. */
  ghost predicate Preserves(s: NetState, r: NetState, op: LedgerOp) {
    && (forall w :: w in s.participants ==> w in r.participants && SamePerson(s.participants[w], r.participants[w]))
    && (forall p :: p in s.projects ==> p in r.projects && SameVenture(s.projects[p], r.projects[p]))
    && (forall t :: t in s.tasks ==> t in r.tasks && SameAssignment(s.tasks[t], r.tasks[t]))
    && r.config == s.config
    && r.now == (if !op.Tick? then s.now else if s.now + op.n < LIMIT then s.now + op.n else MAX)
    && s.ledger <= r.ledger && forall i :: |s.ledger| <= i < |r.ledger| ==> r.ledger[i].tick == r.now
  }

  lemma {:induction false} EachSamePerson(ps: map<ParticipantId, Participant>, ws: seq<ParticipantId>, delta: int)
    requires -HALF <= delta < HALF
    ensures forall w :: w in ps ==> w in AdjustEach(ps, ws, delta) && SamePerson(ps[w], AdjustEach(ps, ws, delta)[w])
  {
    hide Adjusted;
    if ws != [] {
      EachSamePerson(ps, ws[..|ws|-1], delta);
    }
  }

  /** A state reached without touching the clock, by steps of the kinds above. */
  ghost predicate Carries(s: NetState, r: NetState) {
    && (forall w :: w in s.participants ==> w in r.participants && SamePerson(s.participants[w], r.participants[w]))
    && (forall p :: p in s.projects ==> p in r.projects && SameVenture(s.projects[p], r.projects[p]))
    && (forall t :: t in s.tasks ==> t in r.tasks && SameAssignment(s.tasks[t], r.tasks[t]))
    && r.config == s.config && r.now == s.now
    && s.ledger <= r.ledger && forall i :: |s.ledger| <= i < |r.ledger| ==> r.ledger[i].tick == r.now
  }

  lemma CarriesOn(s: NetState, m: NetState, r: NetState)
    requires Carries(s, m) && Carries(m, r)
    ensures Carries(s, r)
  {
    hide SameVenture;
    forall p | p in s.projects ensures SameVenture(s.projects[p], r.projects[p]) {
      VentureOn(s.projects[p], m.projects[p], r.projects[p]);
    }
  }

  lemma VentureOn(a: Project, b: Project, c: Project)
    requires SameVenture(a, b) && SameVenture(b, c)
    ensures SameVenture(a, c)
  {}

  lemma CarriesItself(s: NetState)
    ensures Carries(s, s)
  {}

  lemma {:induction false} ReclaimAllCarries(s: NetState, ids: seq<TaskId>)
    ensures Carries(s, ReclaimAll(s, ids)) && ReclaimAll(s, ids).ledger == s.ledger
  {
    hide Carries;
    if ids == [] {
      CarriesItself(s);
    } else {
      var init := ids[..|ids|-1];
      ReclaimAllCarries(s, init);
      ReclaimOneCarries(ReclaimAll(s, init), ids[|ids|-1]);
      CarriesOn(s, ReclaimAll(s, init), ReclaimAll(s, ids));
    }
  }

  lemma ReclaimOneCarries(s: NetState, t: TaskId)
    ensures Carries(s, ReclaimOne(s, t)) && ReclaimOne(s, t).ledger == s.ledger
  {
    hide Adjusted;
  }

  lemma ReclaimCarries(s: NetState)
    ensures Carries(s, Reclaim(s))
  {
    hide ReclaimAll, Slashes, ExpiredIds, SamePerson, SameVenture, SameAssignment;
    ReclaimAllCarries(s, ExpiredIds(s));
  }

  lemma RequestCarries(s: NetState, w: ParticipantId)
    ensures Carries(s, Request(s, w).state)
  {
    hide Reclaim, BestTask, Without, Carries;
    CarriesItself(s);
    if w in s.participants {
      ReclaimCarries(s);
      var s1 := Reclaim(s);
      var best := BestTask(s1, w, s1.pending);
      if best.Some? {
        AssignCarries(s1, Without(s1.pending, best.value), w, best.value);
        CarriesOn(s, s1, Request(s, w).state);
      }
    }
  }

  lemma AssignCarries(s: NetState, rest: seq<TaskId>, w: ParticipantId, t: TaskId)
    ensures Carries(s, Assign(s.(pending := rest), w, t).state)
  {}

  lemma ReleaseCarries(s: NetState, p: ProjectId, amount: u64)
    ensures Carries(s, Release(s, p, amount).state)
  {}

  lemma RejectCarries(s: NetState, t: TaskId)
    ensures Carries(s, Reject(s, t).state)
  {
    hide AdjustEach;
    if t in s.tasks {
      EachSamePerson(s.participants, Reporters(s.tasks[t].reports), PenaltyDelta(s.config));
    }
  }

  lemma {:induction false} SettleCarries(s: NetState, t: TaskId, digest: string, winners: seq<Winner>)
    requires t in s.tasks && WrappedWeight(winners) > 0
    ensures Carries(s, Settle(s, t, digest, winners))
  {
    hide AdjustEach, Distribute, RewardTxs, SamePerson;
    var workers := Backers(s.tasks[t].reports, digest);
    EachSamePerson(s.participants, workers, RewardDelta(s.config));
    var praised := AdjustEach(s.participants, workers, RewardDelta(s.config));
    EachSamePerson(praised, Dissenters(s.tasks[t].reports, digest), PenaltyDelta(s.config));
    forall w | w in s.participants
      ensures w in Settle(s, t, digest, winners).participants
      ensures SamePerson(s.participants[w], Settle(s, t, digest, winners).participants[w])
    {
      PersonOn(s.participants[w], praised[w], Settle(s, t, digest, winners).participants[w]);
    }
  }

  lemma PersonOn(a: Participant, b: Participant, c: Participant)
    requires SamePerson(a, b) && SamePerson(b, c)
    ensures SamePerson(a, c)
  {}

  lemma ExhaustCarries(s: NetState, t: TaskId, digest: string, ws: seq<ParticipantId>, blob: Option<Blob>)
    requires t in s.tasks
    ensures Carries(s, Exhaust(s, t, digest, ws, blob).state)
  {}

  lemma FinalizeCarries(s: NetState, t: TaskId, digest: string)
    ensures Carries(s, Finalize(s, t, digest).state)
  {
    hide Carries, Reject, Exhaust, Settle, Release, WrappedWeight, Weighted, IsBudgetExhausted;
    CarriesItself(s);
    RejectCarries(s, t);
    if t in s.tasks {
      var task := s.tasks[t];
      var workers := Backers(task.reports, digest);
      ExhaustCarries(s, t, digest, workers, FirstBlob(task.reports, digest));
      ReleaseCarries(s, task.projectId, task.reward);
      var s1 := Release(s, task.projectId, task.reward).state;
      ReleaseTasks(s, task.projectId, task.reward);
      RejectCarries(s1, t);
      CarriesOn(s, s1, Reject(s1, t).state);
      var winners := Weighted(s.participants, workers);
      if WrappedWeight(winners) > 0 {
        SettleCarries(s1, t, digest, winners);
        CarriesOn(s, s1, Settle(s1, t, digest, winners));
      }
    }
  }

  lemma ReleaseTasks(s: NetState, p: ProjectId, amount: u64)
    ensures Release(s, p, amount).state.tasks == s.tasks
  {}

  lemma ConcludeCarries(s: NetState, t: TaskId)
    requires t in s.tasks
    ensures Carries(s, Conclude(s, t).state)
  {
    hide Finalize, Reject, ConsensusDigest;
    RejectCarries(s, t);
    match ConsensusDigest(s.participants, s.tasks[t].reports, s.tasks[t].weightRequired)
    case Some(digest) => FinalizeCarries(s, t, digest);
    case None =>
  }

  lemma SubmitCarries(s: NetState, w: ParticipantId, t: TaskId, digest: string, cost: u64, blob: Option<Blob>)
    ensures Carries(s, Submit(s, w, t, digest, cost, blob).state)
  {
    hide Carries, Reclaim, Conclude;
    CarriesItself(s);
    if w in s.participants {
      ReclaimCarries(s);
      var s1 := Reclaim(s);
      LeaseGoneCarries(s1, t);
      CarriesOn(s, s1, s1.(leases := s1.leases - {t}));
      if t in s1.leases && s1.leases[t].workerId == w && t in s1.tasks {
        var s2 := Report(s1, w, t, TaskReport(w, digest, cost, blob));
        ReportCarries(s1, w, t, TaskReport(w, digest, cost, blob));
        ConcludeCarries(s2, t);
        CarriesOn(s, s1, s2);
        CarriesOn(s, s2, Conclude(s2, t).state);
      }
    }
  }

  lemma LeaseGoneCarries(s: NetState, t: TaskId)
    ensures Carries(s, s.(leases := s.leases - {t}))
  {}

  lemma ReportCarries(s: NetState, w: ParticipantId, t: TaskId, report: TaskReport)
    requires t in s.tasks
    ensures Carries(s, Report(s, w, t, report))
  {}

  lemma FreshTaskId(s: NetState)
    requires Consistent(s)
    ensures s.nextTask !in s.tasks && s.nextProject !in s.projects
  {
    assert s.nextTask in s.tasks ==> Sound(s, s.nextTask);
  }

  /** No operation removes, renames or hands over anything. */
  lemma NothingIsRewritten(s: NetState, op: LedgerOp)
    requires Consistent(s)
    ensures Preserves(s, Apply(s, op), op)
  {
    hide Consistent, Reclaim, Request, Submit, Balance, FundMemo;
    FreshTaskId(s);
    match op {
      case RequestTask(w, _) => RequestCarries(s, w);
      case SubmitResult(w, t, digest, cost, blob) => SubmitCarries(s, w, t, digest, cost, blob);
      case Tick(n) => ReclaimCarries(s.(now := SatAdd(s.now, n)));
      case _ => LedgerOpsCarry(s, op);
    }
  }

  lemma DonateCarries(s: NetState, who: ParticipantId, p: ProjectId, amount: u64)
    ensures Carries(s, Donate(s, who, p, amount).state)
  {
    hide Balance, FundMemo;
  }

  lemma TransferCarries(s: NetState, from: ParticipantId, to: ParticipantId, amount: u64, memo: string)
    ensures Carries(s, TransferBetween(s, from, to, amount, memo).state)
  {
    hide Balance;
  }

  lemma RegisterCarries(s: NetState, id: ParticipantId, name: string, key: Option<Key>, balance: u64)
    ensures Carries(s, Register(s, id, name, key, balance))
  {}

  lemma NewProjectCarries(s: NetState, owner: ParticipantId, name: string, key: Option<Key>)
    requires s.nextProject !in s.projects
    ensures Carries(s, NewProject(s, owner, name, key).state)
  {}

  lemma NewTaskCarries(s: NetState, owner: ParticipantId, p: ProjectId, reward: u64, payload: string)
    requires s.nextTask !in s.tasks
    ensures Carries(s, NewTask(s, owner, p, reward, payload).state)
  {}

  lemma OtherOpsAddNoTask(s: NetState, op: LedgerOp, t: TaskId)
    requires Consistent(s) && t in Apply(s, op).tasks && t !in s.tasks
    ensures op.SubmitTask? && t == s.nextTask && op.projectId in s.projects
    ensures s.projects[op.projectId].ownerId == op.ownerId &&
      Apply(s, op) == NewTask(s, op.ownerId, op.projectId, op.reward, op.payload).state
    ensures op.reward <= s.projects[op.projectId].quotaAvailable
  {
    hide Consistent, Request, Submit, Reclaim;
    TasksAppear(s, op, t);
    if op.projectId !in s.projects || s.projects[op.projectId].ownerId != op.ownerId {
      StrangersCannotSpend(s, op.ownerId, op.projectId, op.reward, op.payload);
    } else {
      OwnersSpend(s, op.projectId, op.reward, op.payload);
    }
  }

  /** Over every run each task asks for the weight and allows the number of reports that
      the configuration says, at least one of each. */
  lemma {:induction false} TasksAsConfigured(config: Config, ops: seq<LedgerOp>, t: TaskId)
    requires t in ApplyAll(Fresh(config), ops).tasks
    ensures var task := ApplyAll(Fresh(config), ops).tasks[t];
      && task.weightRequired == (if config.consensusQuorum == 0 then 1 else config.consensusQuorum)
      && task.maxReports == (if config.maxReportsPerTask == 0 then 1 else config.maxReportsPerTask)
    ensures config == DEFAULT_CONFIG ==>
      ApplyAll(Fresh(config), ops).tasks[t].weightRequired == 2 && ApplyAll(Fresh(config), ops).tasks[t].maxReports == 5
  {
    hide Apply, Consistent;
    if ops != [] {
      var init, op := ops[..|ops|-1], ops[|ops|-1];
      ReachableConsistent(config, init);
      ConfigKept(config, init);
      var s := ApplyAll(Fresh(config), init);
      NothingIsRewritten(s, op);
      if t in s.tasks {
        TasksAsConfigured(config, init, t);
      } else {
        OtherOpsAddNoTask(s, op, t);
        OwnersSpend(s, op.projectId, op.reward, op.payload);
      }
    }
  }

  lemma {:induction false} ConfigKept(config: Config, ops: seq<LedgerOp>)
    ensures ApplyAll(Fresh(config), ops).config == config
  {
    hide Apply, Consistent;
    if ops != [] {
      var init := ops[..|ops|-1];
      ConfigKept(config, init);
      ReachableConsistent(config, init);
      NothingIsRewritten(ApplyAll(Fresh(config), init), ops[|ops|-1]);
    }
  }

  lemma LedgerOpsCarry(s: NetState, op: LedgerOp)
    requires s.nextTask !in s.tasks && s.nextProject !in s.projects
    requires !op.RequestTask? && !op.SubmitResult? && !op.Tick?
    ensures Carries(s, Apply(s, op))
  {
    hide Carries, Donate, TransferBetween, Register, NewProject, NewTask;
    CarriesItself(s);
    match op
    case RegisterParticipant(id, name, key, balance) => RegisterCarries(s, id, name, Some(key), balance);
    case CreateProject(owner, name, key) => NewProjectCarries(s, owner, name, key);
    case TransferTokens(from, to, amount, memo) => TransferCarries(s, from, to, amount, memo);
    case FundProject(owner, p, amount) => DonateCarries(s, owner, p, amount);
    case DonateToProject(supporter, p, amount) => DonateCarries(s, supporter, p, amount);
    case SubmitTask(owner, p, reward, payload) => NewTaskCarries(s, owner, p, reward, payload);
  }
}
