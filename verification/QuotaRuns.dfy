/** The money invariants over whole runs, and exactly where they stop holding:
    transfers that name a project's account, payouts whose products saturate,
    and several slashes of one worker in one batch. */
module QuotaRuns {
  import opened Words
  import opened Sequences
  import opened Ledger
  import opened Model
  import opened Reward
  import opened NetworkSpec
  import opened TaskInvariants
  import opened TaskOutcomes
  import opened QuotaInvariants

  // ------------------------------------------------------------- reputations

  ghost predicate Repute(s: NetState, bound: nat) {
    forall w :: w in s.participants ==> s.participants[w].reputation <= bound
  }

  lemma {:induction false} AdjustEachBound(ps: map<ParticipantId, Participant>, ws: seq<ParticipantId>, delta: int,
      bound: nat)
    requires -HALF <= delta < HALF && Distinct(ws) && bound >= 1
    requires forall w :: w in ps ==> ps[w].reputation <= bound
    ensures AdjustEach(ps, ws, delta).Keys == ps.Keys
    ensures forall w :: w in ps ==>
      AdjustEach(ps, ws, delta)[w].reputation <= bound + if w in ws && delta > 0 then delta else 0
  {
    if ws != [] {
      var init, last := ws[..|ws|-1], ws[|ws|-1];
      assert ws == init + [last];
      AdjustEachBound(ps, init, delta, bound);
      assert last !in init;
    }
  }

  lemma {:induction false} ReclaimAllRepute(s: NetState, ids: seq<TaskId>, bound: nat)
    requires Repute(s, bound) && bound >= 1 && s.config.reputationPenalty < HALF
    ensures Repute(ReclaimAll(s, ids), bound)
  {
    if ids != [] {
      ReclaimAllRepute(s, ids[..|ids|-1], bound);
      ReclaimAllParticipants(s, ids[..|ids|-1]);
    }
  }

  lemma ReclaimRepute(s: NetState, bound: nat)
    requires Repute(s, bound) && bound >= 1 && s.config.reputationPenalty < HALF
    ensures Repute(Reclaim(s), bound)
  {
    ReclaimAllRepute(s, ExpiredIds(s), bound);
  }

  ghost predicate DistinctReporters(reports: seq<TaskReport>) {
    forall i, j :: 0 <= i < j < |reports| ==> reports[i].workerId != reports[j].workerId
  }

  ghost predicate Among(ws: seq<ParticipantId>, reports: seq<TaskReport>) {
    forall w :: w in ws ==> exists i :: 0 <= i < |reports| && reports[i].workerId == w
  }

  lemma AmongMore(ws: seq<ParticipantId>, reports: seq<TaskReport>)
    requires reports != [] && DistinctReporters(reports)
    requires Among(ws, reports[..|reports|-1]) && Distinct(ws)
    ensures var w := reports[|reports|-1].workerId;
      Among(ws, reports) && Among(ws + [w], reports) && Distinct(ws + [w])
  {
    var init, last := reports[..|reports|-1], reports[|reports|-1];
    forall w | w in ws ensures w != last.workerId && exists i :: 0 <= i < |reports| && reports[i].workerId == w {
      var i :| 0 <= i < |init| && init[i].workerId == w;
      assert reports[i].workerId == w;
    }
    assert reports[|reports|-1].workerId == last.workerId;
    DistinctAppend(ws, last.workerId);
  }

  lemma {:induction false} ListsDistinct(reports: seq<TaskReport>, digest: string)
    requires DistinctReporters(reports)
    ensures Distinct(Backers(reports, digest)) && Among(Backers(reports, digest), reports)
    ensures Distinct(Dissenters(reports, digest)) && Among(Dissenters(reports, digest), reports)
    ensures Distinct(Reporters(reports)) && Among(Reporters(reports), reports)
  {
    if reports != [] {
      var init := reports[..|reports|-1];
      ListsDistinct(init, digest);
      AmongMore(Backers(init, digest), reports);
      AmongMore(Dissenters(init, digest), reports);
      AmongMore(Reporters(init), reports);
    }
  }

  /** One settlement raises a reputation by at most the configured reward. */
  lemma FinalizeRepute(s: NetState, t: TaskId, digest: string, bound: nat)
    requires Limbo(s, t) && Repute(s, bound) && bound >= 1
    requires s.config.reputationPenalty < HALF && s.config.reputationReward < HALF
    ensures Repute(Finalize(s, t, digest).state, bound + s.config.reputationReward)
  {
    hide Placed, Shape, Sound, Consistent, AdjustEach, Adjust, Distribute, RewardTxs, Distinct, DistinctReporters,
         Among;
    hide IsBudgetExhausted, Weighted, WrappedWeight;
    var task := s.tasks[t];
    TaskReportersDistinct(s, t);
    ListsDistinct(task.reports, digest);
    var workers := Backers(task.reports, digest);
    AdjustEachBound(s.participants, Reporters(task.reports), PenaltyDelta(s.config), bound);
    AdjustEachBound(s.participants, workers, RewardDelta(s.config), bound);
    AdjustEachBound(AdjustEach(s.participants, workers, RewardDelta(s.config)),
                    Dissenters(task.reports, digest), PenaltyDelta(s.config), bound + s.config.reputationReward);
    ReleaseLimbo(s, t);
  }

  lemma TaskReportersDistinct(s: NetState, t: TaskId)
    requires t in s.tasks && Sound(s, t)
    ensures DistinctReporters(s.tasks[t].reports)
  {}

  lemma ConcludeRepute(s: NetState, t: TaskId, bound: nat)
    requires Limbo(s, t) && Repute(s, bound) && bound >= 1
    requires s.config.reputationPenalty < HALF && s.config.reputationReward < HALF
    ensures Repute(Conclude(s, t).state, bound + s.config.reputationReward)
  {
    hide Placed, Shape, Sound, Consistent, AdjustEach, Adjust, Finalize, Distinct, DistinctReporters, Among;
    var task := s.tasks[t];
    match ConsensusDigest(s.participants, task.reports, task.weightRequired)
    case Some(digest) => FinalizeRepute(s, t, digest, bound);
    case None =>
      TaskReportersDistinct(s, t);
      ListsDistinct(task.reports, "");
      AdjustEachBound(s.participants, Reporters(task.reports), PenaltyDelta(s.config), bound);
  }

  lemma ApplyRepute(s: NetState, op: LedgerOp, bound: nat)
    requires Consistent(s) && Repute(s, bound) && bound >= 1
    requires s.config.reputationPenalty < HALF && s.config.reputationReward < HALF
    ensures Repute(Apply(s, op), bound + s.config.reputationReward)
  {
    hide Placed, Shape, Sound, Consistent, Reclaim, Conclude, BestTask;
    match op {
      case RequestTask(w, _) => ReclaimRepute(s, bound);
      case SubmitResult(w, t, digest, cost, blob) =>
        if Submit(s, w, t, digest, cost, blob).out.Ok? {
          var s1, s2 := SubmitUnfolded(s, w, t, digest, cost, blob);
          ReclaimRepute(s, bound);
          ReclaimParticipants(s);
          ConcludeRepute(s2, t, bound);
        } else {
          SubmitConsistent(s, w, t, digest, cost, blob);
          ReclaimRepute(s, bound);
        }
      case Tick(n) => ReclaimRepute(s.(now := SatAdd(s.now, n)), bound);
      case _ =>
    }
  }

  // -------------------------------------------------------------- every step

  /** Participants and transfer endpoints are ordinary accounts, not those of
      any of the log's `n` projects. */
  predicate Separate(op: LedgerOp, n: nat) {
    match op
    case RegisterParticipant(id, _, _, _) => !ProjectAccount(id, n)
    case TransferTokens(from, to, _, _) => !ProjectAccount(from, n) && !ProjectAccount(to, n)
    case _ => true
  }

  function MintOf(op: LedgerOp): nat {
    if op.RegisterParticipant? then op.initialBalance else 0
  }

  lemma SubmitQuotas(s: NetState, n: nat, exact: bool, w: ParticipantId, t: TaskId, digest: string, cost: u64,
      blob: Option<Blob>, bound: nat)
    requires Consistent(s) && Quotas(s, n, exact) && Mild(s, bound) && s.config.reputationPenalty < HALF
    requires exact ==> Roomy(s, bound)
    ensures Quotas(Submit(s, w, t, digest, cost, blob).state, n, exact)
    ensures Minted(Submit(s, w, t, digest, cost, blob).state.Txs()) == Minted(s.Txs())
  {
    hide Placed, Shape, Sound, Consistent, Covered, Raw, Minted, LockedSum;
    if w in s.participants {
      ReclaimQuotas(s, n, exact);
      if Submit(s, w, t, digest, cost, blob).out.Ok? {
        var s1, s2 := SubmitUnfolded(s, w, t, digest, cost, blob);
        ReclaimRepute(s, bound);
        ReclaimParticipants(s);
        HeldTaskOpen(s1, t);
        SameMoneyQuotas(s1, s2, n, exact);
        ConcludeQuotas(s2, n, exact, t, bound);
      } else {
        SubmitConsistent(s, w, t, digest, cost, blob);
      }
    }
  }

  lemma HeldTaskOpen(s: NetState, t: TaskId)
    requires Consistent(s) && t in s.leases
    ensures t in s.tasks && s.tasks[t].status.Open()
  {
    assert Placed(s, t);
  }

  lemma ApplyQuotas(s: NetState, op: LedgerOp, n: nat, exact: bool, bound: nat)
    requires Consistent(s) && Quotas(s, n, exact) && Mild(s, bound) && s.config.reputationPenalty < HALF
    requires Separate(op, n) && Minted(s.Txs()) + MintOf(op) < LIMIT
    requires op.CreateProject? ==> s.nextProject <= n
    requires exact ==> Roomy(s, bound)
    ensures Quotas(Apply(s, op), n, exact)
    ensures Minted(Apply(s, op).Txs()) <= Minted(s.Txs()) + MintOf(op)
  {
    hide Placed, Shape, Sound, Covered, Raw, LockedSum;
    match op {
      case RegisterParticipant(id, name, key, balance) => RegisterQuotas(s, n, exact, id, name, Some(key), balance);
      case CreateProject(owner, name, key) => NewProjectQuotas(s, n, exact, owner, name, key);
      case TransferTokens(from, to, amount, memo) => TransferQuotas(s, n, exact, from, to, amount, memo);
      case FundProject(owner, p, amount) => DonateQuotas(s, n, exact, owner, p, amount);
      case DonateToProject(supporter, p, amount) => DonateQuotas(s, n, exact, supporter, p, amount);
      case SubmitTask(owner, p, reward, payload) => NewTaskQuotas(s, n, exact, owner, p, reward, payload);
      case RequestTask(w, _) => RequestQuotas(s, n, exact, w);
      case SubmitResult(w, t, digest, cost, blob) => SubmitQuotas(s, n, exact, w, t, digest, cost, blob, bound);
      case Tick(k) => AdvanceQuotas(s, n, exact, k);
    }
  }

  lemma AdvanceQuotas(s: NetState, n: nat, exact: bool, k: u64)
    requires Consistent(s) && Quotas(s, n, exact)
    ensures Quotas(Advance(s, k), n, exact) && Minted(Advance(s, k).Txs()) == Minted(s.Txs())
  {
    var s1 := s.(now := SatAdd(s.now, k));
    SameTasksKept(s, s1);
    SameMoneyQuotas(s, s1, n, exact);
    ReclaimQuotas(s1, n, exact);
  }

  // -------------------------------------------------------------- every run

  function MintsIn(ops: seq<LedgerOp>): nat {
    if ops == [] then 0 else MintsIn(ops[..|ops|-1]) + MintOf(ops[|ops|-1])
  }

  function ProjectsIn(ops: seq<LedgerOp>): nat {
    if ops == [] then 0 else ProjectsIn(ops[..|ops|-1]) + if ops[|ops|-1].CreateProject? then 1 else 0
  }

  /** The most a reputation can reach in `k` operations. */
  function ReputeBound(config: Config, k: nat): nat {
    if k == 0 then 1 else ReputeBound(config, k - 1) + config.reputationReward
  }

  /** What the log itself must satisfy: separate accounts, and room in 64 bits
      for all tokens minted and for the summed weights of one task's reporters. */
  ghost predicate Fits(config: Config, ops: seq<LedgerOp>, n: nat, minted: nat, bound: nat) {
    && (forall i :: 0 <= i < |ops| ==> Separate(ops[i], n))
    && ProjectsIn(ops) <= n && MintsIn(ops) <= minted && ReputeBound(config, |ops|) <= bound
    && minted < LIMIT && MaxReports(config) * bound < LIMIT
    && config.reputationPenalty < HALF && config.reputationReward < HALF
  }

  lemma FitsPrefix(config: Config, ops: seq<LedgerOp>, n: nat, minted: nat, bound: nat)
    requires ops != [] && Fits(config, ops, n, minted, bound)
    ensures Fits(config, ops[..|ops|-1], n, minted, bound)
  {}

  lemma ReachableMild(config: Config, s: NetState, n: nat, minted: nat, bound: nat, k: nat)
    requires s.config == config && Repute(s, k) && 1 <= k <= bound && Minted(s.Txs()) <= minted
    requires MaxReports(config) * bound < LIMIT
    ensures Mild(s, bound)
    ensures minted * bound < LIMIT ==> Roomy(s, bound)
  {
    ProductAtMost(Minted(s.Txs()), bound, minted, bound);
  }

  lemma {:induction false} BoundPositive(config: Config, k: nat)
    ensures ReputeBound(config, k) >= 1
  {
    if k > 0 {
      BoundPositive(config, k - 1);
    }
  }

  /** Along every run that fits, no project's fields exceed its balance and the
      locked part is what open tasks are due; with room for the products of
      amounts and reputations, fields and balance are equal. */
  lemma {:induction false} ReachableQuotas(config: Config, ops: seq<LedgerOp>, n: nat, minted: nat, bound: nat,
      exact: bool)
    requires Fits(config, ops, n, minted, bound) && (exact ==> minted * bound < LIMIT)
    ensures var s := ApplyAll(Fresh(config), ops);
      && Consistent(s) && Quotas(s, n, exact) && Mild(s, bound) && (exact ==> Roomy(s, bound))
      && Minted(s.Txs()) <= MintsIn(ops) && s.nextProject <= 1 + ProjectsIn(ops)
      && Repute(s, ReputeBound(config, |ops|))
  {
    hide Consistent, Covered, Raw;
    BoundPositive(config, |ops|);
    if ops == [] {
      FreshQuotas(config, n, exact);
      ReachableConsistent(config, ops);
      ReachableMild(config, Fresh(config), n, minted, bound, 1);
    } else {
      var init, op := ops[..|ops|-1], ops[|ops|-1];
      FitsPrefix(config, ops, n, minted, bound);
      ReachableQuotas(config, init, n, minted, bound, exact);
      BoundPositive(config, |init|);
      var s := ApplyAll(Fresh(config), init);
      ReachableConsistent(config, init);
      ReachableConsistent(config, ops);
      ApplyQuotas(s, op, n, exact, bound);
      ApplyRepute(s, op, ReputeBound(config, |init|));
      ApplyFrame(s, op);
      ReachableMild(config, Apply(s, op), n, minted, bound, ReputeBound(config, |ops|));
    }
  }

  lemma FreshQuotas(config: Config, n: nat, exact: bool)
    ensures Quotas(Fresh(config), n, exact) && Fresh(config).Txs() == []
    ensures Repute(Fresh(config), 1)
  {
    var l := Fresh(config).ledger;
    assert l[..0] == [];
    assert Flatten(l) == [];
  }

  /** The reader's version: what a project's fields promise is covered by what
      `balance_of` reports for its account; the locked field is the sum of its
      open tasks' rewards; releasing a reward never saturates; and the
      scheduler's priority does not wrap. */
  lemma {:induction false} QuotaWithinBalance(config: Config, ops: seq<LedgerOp>, n: nat, minted: nat, bound: nat,
      p: ProjectId)
    requires Fits(config, ops, n, minted, bound)
    requires p in ApplyAll(Fresh(config), ops).projects
    ensures var s := ApplyAll(Fresh(config), ops); var project := s.projects[p];
      && project.PriorityScore() == project.quotaAvailable + project.quotaLocked
      && project.PriorityScore() <= s.BalanceOf(ProjectAddress(p)) <= Minted(s.Txs()) <= MintsIn(ops)
      && project.quotaLocked == LockedSum(s.tasks, p, s.nextTask)
      && forall t :: t in s.tasks && s.tasks[t].projectId == p && s.tasks[t].status.Open() ==>
           s.tasks[t].reward <= project.quotaLocked
  {
    ReachableQuotas(config, ops, n, minted, bound, false);
    var s := ApplyAll(Fresh(config), ops);
    QuotaFits(s, n, p);
    BalanceExact(s.Txs(), ProjectAddress(p));
    SpendableBounded(s.Txs(), [ProjectAddress(p)]);
    assert [ProjectAddress(p)][..0] == [];
    forall t | t in s.tasks && s.tasks[t].projectId == p && s.tasks[t].status.Open()
      ensures s.tasks[t].reward <= s.projects[p].quotaLocked
    {
      assert Sound(s, t);
      LockedAtLeast(s.tasks, p, s.nextTask, t);
    }
  }

  /** With room for the products the balance is just that, no more. */
  lemma {:induction false} QuotaIsBalance(config: Config, ops: seq<LedgerOp>, n: nat, minted: nat, bound: nat,
      p: ProjectId)
    requires Fits(config, ops, n, minted, bound) && minted * bound < LIMIT
    requires p in ApplyAll(Fresh(config), ops).projects
    ensures var s := ApplyAll(Fresh(config), ops); var project := s.projects[p];
      s.BalanceOf(ProjectAddress(p)) == project.quotaAvailable + project.quotaLocked
  {
    ReachableQuotas(config, ops, n, minted, bound, true);
    BalanceExact(ApplyAll(Fresh(config), ops).Txs(), ProjectAddress(p));
  }

  // ---------------------------------------------------- where it stops holding

  /** Fields and balances in step now, and no token yet on the account of any
      project still to be created. */
  ghost predicate BackedAhead(s: NetState) {
    Backed(s) && forall p: ProjectId :: p >= s.nextProject ==> Raw(s.Txs(), ProjectAddress(p)) == 0
  }

  /** The address belongs to a project, now or later. */
  predicate NamesProject(s: NetState, a: Address) {
    a >= PROJECT_ID_OFFSET && (a - PROJECT_ID_OFFSET in s.projects || a - PROJECT_ID_OFFSET >= s.nextProject)
  }

  /** A new project starts with empty fields, so it is in step exactly when its
      account is empty too. */
  lemma NewProjectKeepsBackedExactly(s: NetState, owner: ParticipantId, name: string, key: Option<Key>)
    requires Backed(s) && Shape(s) && owner in s.participants
    ensures Backed(NewProject(s, owner, name, key).state) <==> Raw(s.Txs(), ProjectAddress(s.nextProject)) == 0
    ensures BackedAhead(s) ==> BackedAhead(NewProject(s, owner, name, key).state)
  {
    hide Raw;
    var r := NewProject(s, owner, name, key).state;
    assert s.nextProject in r.projects && r.Txs() == s.Txs();
  }

  /** What one committed transaction does to the balances of projects. */
  lemma OneTransaction(s: NetState, tx: Transaction)
    ensures forall p: ProjectId ::
      Raw(Commit(s, [tx]).Txs(), ProjectAddress(p)) == Raw(s.Txs(), ProjectAddress(p)) + Delta(tx, ProjectAddress(p))
  {
    forall p: ProjectId
      ensures Raw(Commit(s, [tx]).Txs(), ProjectAddress(p))
        == Raw(s.Txs(), ProjectAddress(p)) + Delta(tx, ProjectAddress(p))
    {
      CommitOne(s, tx, ProjectAddress(p));
    }
  }

  /** A balance that moves takes its project out of step. */
  lemma {:induction false} NamedProjectMoves(s: NetState, r: NetState, a: Address)
    requires BackedAhead(s) && NamesProject(s, a) && Raw(r.Txs(), a) != Raw(s.Txs(), a)
    requires r.projects == s.projects && r.nextProject == s.nextProject
    ensures !BackedAhead(r)
  {
    assert ProjectAddress(a - PROJECT_ID_OFFSET) == a;
  }

  /** `transfer` does not look at what its endpoints are: a successful transfer
      keeps quotas and balances in step, for present and future projects, exactly
      when it moves nothing or names no project's account. */
  lemma TransferKeepsBackedExactly(s: NetState, from: ParticipantId, to: ParticipantId, amount: u64, memo: string)
    requires BackedAhead(s) && TransferBetween(s, from, to, amount, memo).out.Ok?
    ensures BackedAhead(TransferBetween(s, from, to, amount, memo).state) <==>
      amount == 0 || from == to || (!NamesProject(s, from) && !NamesProject(s, to))
  {
    hide Raw, TransferBetween;
    TransferMoves(s, from, to, amount, memo);
    var r := TransferBetween(s, from, to, amount, memo).state;
    if amount != 0 && from != to {
      if NamesProject(s, from) {
        NamedProjectMoves(s, r, from);
      } else if NamesProject(s, to) {
        NamedProjectMoves(s, r, to);
      } else {
        forall p: ProjectId | p in s.projects || p >= s.nextProject
          ensures Raw(r.Txs(), ProjectAddress(p)) == Raw(s.Txs(), ProjectAddress(p))
        {
          assert NamesProject(s, ProjectAddress(p));
        }
      }
    }
  }

  lemma TransferMoves(s: NetState, from: ParticipantId, to: ParticipantId, amount: u64, memo: string)
    requires TransferBetween(s, from, to, amount, memo).out.Ok?
    ensures var r := TransferBetween(s, from, to, amount, memo).state;
      && r.projects == s.projects && r.nextProject == s.nextProject
      && forall a: Address ::
           Raw(r.Txs(), a) == Raw(s.Txs(), a)
             + (if a == to then amount as int else 0) - (if a == from then amount as int else 0)
  {
    hide Raw, Balance;
    var tx := Transfer(from, to, amount, memo);
    forall a: Address ensures Raw(Commit(s, [tx]).Txs(), a) == Raw(s.Txs(), a) + Delta(tx, a) {
      CommitOne(s, tx, a);
    }
  }

  /** Likewise for the mint of a registration. */
  lemma RegisterKeepsBackedExactly(s: NetState, id: ParticipantId, name: string, key: Option<Key>, balance: u64)
    requires BackedAhead(s)
    ensures BackedAhead(Register(s, id, name, key, balance)) <==>
      id in s.participants || balance == 0 || !NamesProject(s, id)
  {
    hide Raw;
    if id !in s.participants && balance > 0 {
      var r := Register(s, id, name, key, balance);
      OneTransaction(s, Mint(id, balance));
      assert r.Txs() == Commit(s, [Mint(id, balance)]).Txs();
      if NamesProject(s, id) {
        CommitOne(s, Mint(id, balance), id);
        NamedProjectMoves(s, r, id);
      }
    } else {
      assert Register(s, id, name, key, balance).Txs() == s.Txs();
    }
  }
}
