/** What a report achieves: when a digest wins, how slots are used up, and that
    a settled task stays settled. */
module TaskOutcomes {
  import opened Words
  import opened Sequences
  import opened Model
  import opened Reward
  import opened NetworkSpec
  import opened TaskInvariants

  // --------------------------------------------------------- weighted consensus

  /** Total weight behind a digest, as an unbounded sum. */
  function Support(ps: map<ParticipantId, Participant>, reports: seq<TaskReport>, digest: string): nat {
    if reports == [] then 0
    else
      var last := reports[|reports|-1];
      Support(ps, reports[..|reports|-1], digest) + if last.resultDigest == digest then WeightOf(ps, last.workerId)
        else 0
  }

  /** Total weight of all reporters. */
  function Turnout(ps: map<ParticipantId, Participant>, reports: seq<TaskReport>): nat {
    if reports == [] then 0
    else Turnout(ps, reports[..|reports|-1]) + WeightOf(ps, reports[|reports|-1].workerId)
  }

  lemma {:induction false} SupportAtMostTurnout(ps: map<ParticipantId, Participant>, reports: seq<TaskReport>,
      digest: string)
    ensures Support(ps, reports, digest) <= Turnout(ps, reports)
  {
    if reports != [] {
      SupportAtMostTurnout(ps, reports[..|reports|-1], digest);
    }
  }

  /** The running total is the digest's support up to there, modulo 64 bits. */
  lemma {:induction false} RunningWeightWraps(ps: map<ParticipantId, Participant>, reports: seq<TaskReport>,
      digest: string)
    ensures RunningWeight(ps, reports, digest) == Wrap(Support(ps, reports, digest))
  {
    if reports != [] {
      RunningWeightWraps(ps, reports[..|reports|-1], digest);
      WrapAdd(Support(ps, reports[..|reports|-1], digest), WeightOf(ps, reports[|reports|-1].workerId));
    }
  }

  lemma {:induction false} PrefixMonotone(ps: map<ParticipantId, Participant>, reports: seq<TaskReport>,
      digest: string, i: nat)
    requires i <= |reports|
    ensures Support(ps, reports[..i], digest) <= Support(ps, reports, digest)
    ensures Turnout(ps, reports[..i]) <= Turnout(ps, reports)
    decreases |reports| - i
  {
    if i == |reports| {
      assert reports[..i] == reports;
    } else {
      PrefixMonotone(ps, reports, digest, i + 1);
      assert reports[..i+1][..i] == reports[..i];
    }
  }

  /** The report with which a digest's support first reaches the requirement. */
  lemma {:induction false} Crossing(ps: map<ParticipantId, Participant>, reports: seq<TaskReport>, digest: string,
      required: u64)
    returns (i: nat)
    requires 0 < required <= Support(ps, reports, digest)
    ensures i < |reports| && reports[i].resultDigest == digest
    ensures Support(ps, reports[..i], digest) < required <= Support(ps, reports[..i+1], digest)
    ensures Support(ps, reports[..i+1], digest) == Support(ps, reports[..i], digest) + WeightOf(ps, reports[i].workerId)
  {
    var n := |reports| - 1;
    var init := reports[..n];
    if Support(ps, init, digest) >= required {
      i := Crossing(ps, init, digest, required);
      assert init[..i] == reports[..i] && init[..i+1] == reports[..i+1];
    } else {
      i := n;
      assert reports[..n+1] == reports;
    }
  }

  lemma {:induction false} ConsensusFromFirst(ps: map<ParticipantId, Participant>, reports: seq<TaskReport>,
      required: u64, i: nat)
    requires i <= |reports|
    ensures var r := ConsensusFrom(ps, reports, required, i);
      && (r == None <==> forall j :: i <= j < |reports| ==>
           RunningWeight(ps, reports[..j+1], reports[j].resultDigest) < required)
      && (r.Some? ==> exists j :: i <= j < |reports| && reports[j].resultDigest == r.value
                                  && RunningWeight(ps, reports[..j+1], r.value) >= required)
    decreases |reports| - i
  {
    hide RunningWeight;
    if i < |reports| && RunningWeight(ps, reports[..i+1], reports[i].resultDigest) < required {
      ConsensusFromFirst(ps, reports, required, i + 1);
    }
  }

  /** For all weights: `consensus_digest` finds a digest exactly when, at some
      report, the support of its digest so far reaches the requirement modulo 64
      bits; and the digest it returns does have the required support. */
  lemma {:induction false} ConsensusExactly(ps: map<ParticipantId, Participant>, reports: seq<TaskReport>,
      required: u64)
    ensures var r := ConsensusDigest(ps, reports, required);
      && (r.Some? <==> exists i ::
            0 <= i < |reports| && Wrap(Support(ps, reports[..i+1], reports[i].resultDigest)) >= required)
      && (r.Some? ==> Support(ps, reports, r.value) >= required)
  {
    hide RunningWeight, Support, Wrap;
    var r := ConsensusDigest(ps, reports, required);
    ConsensusFromFirst(ps, reports, required, 0);
    forall i | 0 <= i < |reports|
      ensures RunningWeight(ps, reports[..i+1], reports[i].resultDigest)
           == Wrap(Support(ps, reports[..i+1], reports[i].resultDigest))
    {
      RunningWeightWraps(ps, reports[..i+1], reports[i].resultDigest);
    }
    if r.Some? {
      var j :| 0 <= j < |reports| && reports[j].resultDigest == r.value
               && RunningWeight(ps, reports[..j+1], r.value) >= required;
      PrefixMonotone(ps, reports, r.value, j + 1);
      WrapAtMost(Support(ps, reports[..j+1], r.value));
    }
  }

  /** No running total can step over the requirement by wrapping; none ever can over
      a requirement of one, the engine's. */
  ghost predicate CannotWrapPast(ps: map<ParticipantId, Participant>, reports: seq<TaskReport>, required: u64) {
    || required <= 1 || Turnout(ps, reports) < LIMIT
    || forall i :: 0 <= i < |reports| ==> WeightOf(ps, reports[i].workerId) + required <= LIMIT
  }

  /** Then a digest is found exactly when one has the required support. */
  lemma {:induction false} ConsensusComplete(ps: map<ParticipantId, Participant>, reports: seq<TaskReport>,
      required: u64)
    requires CannotWrapPast(ps, reports, required)
    ensures ConsensusDigest(ps, reports, required).Some? <==>
      exists k :: 0 <= k < |reports| && Support(ps, reports, reports[k].resultDigest) >= required
  {
    hide Support, Wrap, Turnout;
    ConsensusExactly(ps, reports, required);
    ConsensusFromFirst(ps, reports, required, 0);
    if k :| 0 <= k < |reports| && Support(ps, reports, reports[k].resultDigest) >= required {
      if required == 0 {
        assert Wrap(Support(ps, reports[..k+1], reports[k].resultDigest)) >= required;
      } else {
        var i := Crossing(ps, reports, reports[k].resultDigest, required);
        PrefixMonotone(ps, reports, reports[i].resultDigest, i + 1);
        SupportAtMostTurnout(ps, reports, reports[i].resultDigest);
        WrapAtMost(Support(ps, reports[..i+1], reports[i].resultDigest));
      }
    }
  }

  /** Otherwise support may go unnoticed: two reports of half the range each reach
      the requirement together, and their running total reads zero. */
  lemma WrapMissesConsensus()
    ensures var ps := map[7 := Participant(7, "", HALF, None), 8 := Participant(8, "", HALF, None)];
      var reports := [TaskReport(7, "x", 0, None), TaskReport(8, "x", 0, None)];
      Support(ps, reports, "x") >= MAX && ConsensusDigest(ps, reports, MAX) == None
  {
    var ps := map[7 := Participant(7, "", HALF, None), 8 := Participant(8, "", HALF, None)];
    var reports := [TaskReport(7, "x", 0, None), TaskReport(8, "x", 0, None)];
    assert reports[..1] == [reports[0]] && reports[..1][..0] == [] && reports[..2] == reports;
    assert RunningWeight(ps, reports[..1], "x") == HALF && RunningWeight(ps, reports, "x") == 0;
    assert Support(ps, reports[..1], "x") == HALF;
    assert ConsensusFrom(ps, reports, MAX, 2) == None;
    assert ConsensusFrom(ps, reports, MAX, 1) == None;
  }

  // ------------------------------------------------------------------- slots

  lemma {:induction false} ReclaimAllTasks(s: NetState, ids: seq<TaskId>)
    ensures ReclaimAll(s, ids).tasks.Keys == s.tasks.Keys
    ensures forall t :: t in s.tasks ==>
      var r := ReclaimAll(s, ids).tasks[t];
      r == s.tasks[t] || (s.tasks[t].status.Assigned? && r == s.tasks[t].(status := Pending))
  {
    if ids != [] {
      ReclaimAllTasks(s, ids[..|ids|-1]);
    }
  }

  lemma ReclaimTasks(s: NetState)
    ensures Reclaim(s).tasks.Keys == s.tasks.Keys
    ensures forall t :: t in s.tasks ==>
      var r := Reclaim(s).tasks[t];
      r == s.tasks[t] || (s.tasks[t].status.Assigned? && r == s.tasks[t].(status := Pending))
  {
    ReclaimAllTasks(s, ExpiredIds(s));
  }

  /** From `s` to `r` the report filled a free slot of task `t`, whose lease
      its author held; `done` tells whether the task is now settled. */
  ghost predicate SlotUsed(s: NetState, r: NetState, t: TaskId, report: TaskReport, done: bool) {
    && t in s.tasks && t in r.tasks
    && s.tasks[t].status.Assigned? && s.tasks[t].status.workerId == report.workerId
    && |s.tasks[t].reports| < s.tasks[t].maxReports && !Reported(s.tasks[t], report.workerId)
    && r.tasks[t].reports == s.tasks[t].reports + [report]
    && done == !r.tasks[t].status.Open()
    && (!done ==> r.tasks[t].status.Pending?)
  }

  /** Apart from one task, tasks are as they were, or lost an expired lease. */
  ghost predicate OthersKept(s: NetState, r: NetState, t: TaskId) {
    && r.tasks.Keys == s.tasks.Keys
    && forall u :: u in s.tasks && u != t ==>
         r.tasks[u] == s.tasks[u] || (s.tasks[u].status.Assigned? && r.tasks[u] == s.tasks[u].(status := Pending))
  }

  /** The states an accepted report passes through. */
  lemma SubmitUnfolded(s: NetState, w: ParticipantId, t: TaskId, digest: string, cost: u64, blob: Option<Blob>)
    returns (s1: NetState, s2: NetState)
    requires Consistent(s) && Submit(s, w, t, digest, cost, blob).out.Ok?
    ensures s1 == Reclaim(s) && Consistent(s1)
    ensures t in s1.tasks && t in s1.leases && s1.leases[t].workerId == w
    ensures s2 == Report(s1, w, t, TaskReport(w, digest, cost, blob)) && Limbo(s2, t)
    ensures Submit(s, w, t, digest, cost, blob) == Conclude(s2, t)
  {
    ReclaimConsistent(s);
    s1 := Reclaim(s);
    s2 := Report(s1, w, t, TaskReport(w, digest, cost, blob));
    ReportLimbo(s1, w, t, TaskReport(w, digest, cost, blob));
  }

  lemma ReportThenConclude(s1: NetState, w: ParticipantId, t: TaskId, report: TaskReport)
    requires Consistent(s1) && t in s1.tasks && t in s1.leases && s1.leases[t].workerId == w == report.workerId
    requires Limbo(Report(s1, w, t, report), t)
    ensures var r := Conclude(Report(s1, w, t, report), t);
      r.out.Ok? && SlotUsed(s1, r.state, t, report, r.out.value) && OthersKept(s1, r.state, t)
  {
    assert Placed(s1, t);
    ConcludeConsistent(Report(s1, w, t, report), t);
  }

  /** Every accepted report fills one of the task's limited slots, is kept
      verbatim, and the answer tells whether the task is now settled. */
  lemma AcceptedReportUsesSlot(s: NetState, w: ParticipantId, t: TaskId, digest: string, cost: u64, blob: Option<Blob>)
    requires Consistent(s)
    requires Submit(s, w, t, digest, cost, blob).out.Ok?
    ensures var r := Submit(s, w, t, digest, cost, blob);
      && SlotUsed(s, r.state, t, TaskReport(w, digest, cost, blob), r.out.value)
      && OthersKept(s, r.state, t)
  {
    var s1, s2 := SubmitUnfolded(s, w, t, digest, cost, blob);
    ReportThenConclude(s1, w, t, TaskReport(w, digest, cost, blob));
    ReclaimTasks(s);
    var r := Conclude(s2, t);
    AcrossReclaim(s, s1, r.state, t, TaskReport(w, digest, cost, blob), r.out.value);
  }

  lemma AcrossReclaim(s: NetState, s1: NetState, r: NetState, t: TaskId, report: TaskReport, done: bool)
    requires s1.tasks.Keys == s.tasks.Keys
    requires forall u :: u in s.tasks ==>
      s1.tasks[u] == s.tasks[u] || (s.tasks[u].status.Assigned? && s1.tasks[u] == s.tasks[u].(status := Pending))
    requires SlotUsed(s1, r, t, report, done) && OthersKept(s1, r, t)
    ensures SlotUsed(s, r, t, report, done) && OthersKept(s, r, t)
  {}

  // ------------------------------------------------------- how tasks evolve

  /** The only ways a task record changes in one operation. */
  ghost predicate Evolves(before: Task, after: Task, op: LedgerOp) {
    || after == before
    || (before.status.Assigned? && after == before.(status := Pending))
    || (op.RequestTask? && before.status.Open() && after == before.(status := after.status) && after.status.Assigned?)
    || (op.SubmitResult? && before.status.Assigned? && before.id == op.taskId && before.status.workerId == op.workerId
        && |after.reports| == |before.reports| + 1)
  }

  lemma RequestEvolves(s: NetState, w: ParticipantId, nonce: u64, t: TaskId)
    requires Consistent(s) && t in s.tasks
    ensures t in Request(s, w).state.tasks
    ensures Evolves(s.tasks[t], Request(s, w).state.tasks[t], RequestTask(w, nonce))
  {
    hide Reclaim, Consistent;
    ReclaimTasks(s);
    if w in s.participants {
      var s1 := Reclaim(s);
      BestTaskIsBest(s1, w, s1.pending);
    }
  }

  lemma SubmitEvolves(s: NetState, w: ParticipantId, u: TaskId, digest: string, cost: u64, blob: Option<Blob>,
      t: TaskId)
    requires Consistent(s) && t in s.tasks
    ensures t in Submit(s, w, u, digest, cost, blob).state.tasks
    ensures Evolves(s.tasks[t], Submit(s, w, u, digest, cost, blob).state.tasks[t],
      SubmitResult(w, u, digest, cost, blob))
  {
    ReclaimTasks(s);
    assert Sound(s, t);
    if Submit(s, w, u, digest, cost, blob).out.Ok? {
      AcceptedReportUsesSlot(s, w, u, digest, cost, blob);
    } else {
      SubmitConsistent(s, w, u, digest, cost, blob);
    }
  }

  lemma TaskEvolves(s: NetState, op: LedgerOp, t: TaskId)
    requires Consistent(s) && t in s.tasks
    ensures t in Apply(s, op).tasks && Evolves(s.tasks[t], Apply(s, op).tasks[t], op)
  {
    hide Request, Submit, Reclaim, Consistent, Register, NewProject, TransferBetween, Donate;
    match op {
      case RegisterParticipant(id, name, key, balance) => LedgerOpsKeepTasks(s, op);
      case CreateProject(owner, name, key) => LedgerOpsKeepTasks(s, op);
      case TransferTokens(from, to, amount, memo) => LedgerOpsKeepTasks(s, op);
      case FundProject(owner, p, amount) => LedgerOpsKeepTasks(s, op);
      case DonateToProject(supporter, p, amount) => LedgerOpsKeepTasks(s, op);
      case RequestTask(w, nonce) => RequestEvolves(s, w, nonce, t);
      case SubmitResult(w, u, digest, cost, blob) => SubmitEvolves(s, w, u, digest, cost, blob, t);
      case Tick(n) => ReclaimTasks(s.(now := SatAdd(s.now, n)));
      case SubmitTask(owner, p, reward, payload) => NewTaskFresh(s, t);
    }
  }

  lemma NewTaskFresh(s: NetState, t: TaskId)
    requires Consistent(s) && t in s.tasks
    ensures t < s.nextTask
  {
    assert Sound(s, t);
  }

  lemma LedgerOpsKeepTasks(s: NetState, op: LedgerOp)
    requires !op.RequestTask? && !op.SubmitResult? && !op.Tick? && !op.SubmitTask?
    ensures Apply(s, op).tasks == s.tasks
  {}

  lemma RequestKeepsTaskIds(s: NetState, w: ParticipantId)
    requires Consistent(s)
    ensures Request(s, w).state.tasks.Keys == s.tasks.Keys
  {
    hide Reclaim, Consistent;
    ReclaimTasks(s);
    if w in s.participants {
      BestTaskIsBest(Reclaim(s), w, Reclaim(s).pending);
    }
  }

  /** New task records appear only by `SubmitTask`, pending and unreported. */
  lemma TasksAppear(s: NetState, op: LedgerOp, t: TaskId)
    requires Consistent(s) && t in Apply(s, op).tasks && t !in s.tasks
    ensures op.SubmitTask? && Apply(s, op).tasks[t].status.Pending? && Apply(s, op).tasks[t].reports == []
  {
    hide Request, Reclaim, Consistent;
    match op {
      case RequestTask(w, nonce) => RequestKeepsTaskIds(s, w);
      case SubmitResult(w, u, digest, cost, blob) =>
        ReclaimTasks(s);
        if Submit(s, w, u, digest, cost, blob).out.Ok? {
          AcceptedReportUsesSlot(s, w, u, digest, cost, blob);
        } else {
          SubmitConsistent(s, w, u, digest, cost, blob);
        }
      case Tick(n) => ReclaimTasks(s.(now := SatAdd(s.now, n)));
      case _ =>
    }
  }

  /** A settled task is never touched again, by any operation. */
  lemma SettledForever(s: NetState, op: LedgerOp, t: TaskId)
    requires Consistent(s)
    requires t in s.tasks && !s.tasks[t].status.Open()
    ensures t in Apply(s, op).tasks && Apply(s, op).tasks[t] == s.tasks[t]
  {
    TaskEvolves(s, op, t);
  }

  /** So over any continuation of a run the task record is frozen. */
  lemma {:induction false} SettledForeverInRuns(config: Config, before: seq<LedgerOp>, after: seq<LedgerOp>, t: TaskId)
    requires var s := ApplyAll(Fresh(config), before); t in s.tasks && !s.tasks[t].status.Open()
    ensures var r := ApplyAll(Fresh(config), before + after);
      t in r.tasks && r.tasks[t] == ApplyAll(Fresh(config), before).tasks[t]
  {
    if after == [] {
      assert before + after == before;
    } else {
      var n := |after| - 1;
      var mid := before + after[..n];
      SettledForeverInRuns(config, before, after[..n], t);
      assert (before + after)[..|before + after|-1] == mid;
      ReachableConsistent(config, mid);
      SettledForever(ApplyAll(Fresh(config), mid), after[n], t);
    }
  }

  // --------------------------------------------------------------- quorum one

  /** With a consensus quorum of one, open tasks have no reports yet. */
  ghost predicate Untried(s: NetState) {
    forall t :: t in s.tasks && s.tasks[t].status.Open() ==> s.tasks[t].reports == []
  }

  /** The status a lone winning report by `w` leads to. */
  function LoneVerdict(w: ParticipantId, digest: string): TaskStatus {
    if IsBudgetExhausted(digest) then QuotaExhausted(digest, [w]) else Completed(digest, [w])
  }

  lemma {:induction false} LoneReport(ps: map<ParticipantId, Participant>, report: TaskReport)
    ensures ConsensusDigest(ps, [report], 1) == Some(report.resultDigest)
    ensures Backers([report], report.resultDigest) == [report.workerId]
    ensures WrappedWeight(Weighted(ps, [report.workerId])) > 0
  {
    assert [report][..1] == [report] && [report][..0] == [];
    assert RunningWeight(ps, [], report.resultDigest) == 0;
    assert RunningWeight(ps, [report], report.resultDigest) == WeightOf(ps, report.workerId);
    assert [report.workerId][..0] == [];
    var winner := Winner(report.workerId, WeightOf(ps, report.workerId));
    assert Weighted(ps, [report.workerId]) == [winner];
    assert [winner][..0] == [];
  }

  lemma LoneReportConcludes(s: NetState, t: TaskId, report: TaskReport)
    requires Limbo(s, t) && s.tasks[t].reports == [report] && s.tasks[t].weightRequired == 1
    ensures var r := Conclude(s, t);
      r.out == Ok(true) && t in r.state.tasks &&
        r.state.tasks[t].status == LoneVerdict(report.workerId, report.resultDigest)
  {
    LoneReport(s.participants, report);
    ReleaseLimbo(s, t);
  }

  /** The engine's setting: one accepted report settles the task, and never by
      rejection. */
  lemma QuorumOneSettles(s: NetState, w: ParticipantId, t: TaskId, digest: string, cost: u64, blob: Option<Blob>)
    requires Consistent(s) && Untried(s) && s.config.consensusQuorum <= 1
    requires Submit(s, w, t, digest, cost, blob).out.Ok?
    ensures var r := Submit(s, w, t, digest, cost, blob);
      r.out.value && t in r.state.tasks && r.state.tasks[t].status == LoneVerdict(w, digest)
  {
    var s1, s2 := SubmitUnfolded(s, w, t, digest, cost, blob);
    ReclaimTasks(s);
    ReclaimParticipants(s);
    assert Sound(s1, t) && Placed(s1, t);
    assert s2.tasks[t].reports == [TaskReport(w, digest, cost, blob)];
    LoneReportConcludes(s2, t, TaskReport(w, digest, cost, blob));
  }

  lemma ApplyUntried(s: NetState, op: LedgerOp)
    requires Consistent(s) && Untried(s) && s.config.consensusQuorum <= 1
    ensures Untried(Apply(s, op))
    ensures forall t :: t in Apply(s, op).tasks && Apply(s, op).tasks[t].status.Rejected? ==>
      t in s.tasks && s.tasks[t].status.Rejected?
  {
    var r := Apply(s, op);
    forall t | t in r.tasks
      ensures r.tasks[t].status.Open() ==> r.tasks[t].reports == []
      ensures r.tasks[t].status.Rejected? ==> t in s.tasks && s.tasks[t].status.Rejected?
    {
      if t !in s.tasks {
        TasksAppear(s, op, t);
      } else {
        TaskEvolves(s, op, t);
        SettlesIfReported(s, op, t);
      }
    }
  }

  lemma SettlesIfReported(s: NetState, op: LedgerOp, t: TaskId)
    requires Consistent(s) && Untried(s) && s.config.consensusQuorum <= 1
    requires t in s.tasks && t in Apply(s, op).tasks
    ensures |Apply(s, op).tasks[t].reports| > |s.tasks[t].reports| ==>
      !Apply(s, op).tasks[t].status.Open() && !Apply(s, op).tasks[t].status.Rejected?
  {
    hide Submit, Reclaim;
    TaskEvolves(s, op, t);
    if op.SubmitResult? && |Apply(s, op).tasks[t].reports| > |s.tasks[t].reports| {
      assert Sound(s, t);
      var SubmitResult(w, u, digest, cost, blob) := op;
      if Submit(s, w, u, digest, cost, blob).out.Ok? {
        QuorumOneSettles(s, w, u, digest, cost, blob);
      } else {
        SubmitConsistent(s, w, u, digest, cost, blob);
        ReclaimTasks(s);
      }
    }
  }

  /** No run of the engine's replica ever rejects a task. */
  lemma {:induction false} QuorumOneNeverRejects(config: Config, ops: seq<LedgerOp>)
    requires config.consensusQuorum <= 1
    ensures var s := ApplyAll(Fresh(config), ops);
      Untried(s) && forall t :: t in s.tasks ==> !s.tasks[t].status.Rejected?
  {
    if ops != [] {
      var init := ops[..|ops|-1];
      QuorumOneNeverRejects(config, init);
      ReachableConsistent(config, init);
      ApplyUntried(ApplyAll(Fresh(config), init), ops[|ops|-1]);
    }
  }
}
