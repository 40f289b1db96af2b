/** What a verdict on a task records and what it does to its project's quota; and who can
    make a quota fall. */
module Verdicts {
  import opened Words
  import opened Sequences
  import opened Ledger
  import opened Model
  import opened Reward
  import opened NetworkSpec
  import opened TaskInvariants
  import opened TaskOutcomes
  import opened QuotaInvariants
  import opened QuotaRuns
  import opened Reputations
  import opened Effects

  // --------------------------------------------------------------- what is recorded

  /** A digest speaks of an exhausted budget if it is written around the marker. */
  lemma ExhaustedExactly(digest: string)
    ensures IsBudgetExhausted(digest) <==>
      exists before: string, after: string :: digest == before + "-budget-exhausted-" + after
  {
    var marker := "-budget-exhausted-";
    if IsBudgetExhausted(digest) {
      var i :| 0 <= i <= |digest| && marker <= digest[i..];
      assert digest == digest[..i] + marker + digest[i + |marker|..];
    }
    forall before: string, after: string | digest == before + marker + after ensures IsBudgetExhausted(digest) {
      assert digest[|before|..] == marker + after;
    }
  }

  /** Those who reported the digest, each once, in the order of their reports. */
  ghost predicate InReportOrder(ws: seq<ParticipantId>, reports: seq<TaskReport>, digest: string) {
    (forall v :: v in ws <==> Backs(reports, digest, v)) && Ordered(ws, reports)
  }

  ghost predicate Ordered(ws: seq<ParticipantId>, reports: seq<TaskReport>) {
    forall x, y :: 0 <= x < y < |ws| ==> ReportedBefore(reports, ws[x], ws[y])
  }

  ghost predicate ReportedBefore(reports: seq<TaskReport>, v: ParticipantId, w: ParticipantId) {
    exists i, j :: 0 <= i < j < |reports| && reports[i].workerId == v && reports[j].workerId == w
  }

  lemma {:induction false} BackersInOrder(reports: seq<TaskReport>, digest: string)
    ensures InReportOrder(Backers(reports, digest), reports, digest)
  {
    forall v ensures v in Backers(reports, digest) <==> Backs(reports, digest, v) {
      ListsSayWho(reports, digest, v);
    }
    BackersOrdered(reports, digest);
  }

  lemma {:induction false} BackersOrdered(reports: seq<TaskReport>, digest: string)
    ensures Ordered(Backers(reports, digest), reports)
  {
    if reports != [] {
      var init, last := reports[..|reports|-1], reports[|reports|-1];
      BackersOrdered(init, digest);
      var rest, ws := Backers(init, digest), Backers(reports, digest);
      forall x, y | 0 <= x < y < |ws| ensures ReportedBefore(reports, ws[x], ws[y]) {
        if y < |rest| {
          assert ws[x] == rest[x] && ws[y] == rest[y];
          assert ReportedBefore(init, rest[x], rest[y]);
          var i, j :| 0 <= i < j < |init| && init[i].workerId == ws[x] && init[j].workerId == ws[y];
          assert reports[i] == init[i] && reports[j] == init[j];
        } else {
          assert ws[x] in rest;
          ListsSayWho(init, digest, ws[x]);
          var i :| 0 <= i < |init| && init[i].workerId == ws[x];
          assert reports[i] == init[i] && reports[|init|] == last;
        }
      }
    }
  }

  /** The result is that of the earliest backer who sent one. */
  ghost predicate EarliestResult(blob: Option<Blob>, reports: seq<TaskReport>, digest: string) {
    if blob.None? then forall i :: 0 <= i < |reports| ==> !HasResult(reports[i], digest)
    else exists i :: 0 <= i < |reports| && HasResult(reports[i], digest) && reports[i].encryptedResult == blob
           && forall j :: 0 <= j < i ==> !HasResult(reports[j], digest)
  }

  predicate HasResult(report: TaskReport, digest: string) {
    report.resultDigest == digest && report.encryptedResult.Some?
  }

  lemma {:induction false} FirstBlobIsEarliest(reports: seq<TaskReport>, digest: string)
    ensures EarliestResult(FirstBlob(reports, digest), reports, digest)
  {
    if reports != [] {
      if HasResult(reports[0], digest) {
        assert EarliestResult(reports[0].encryptedResult, reports, digest);
      } else {
        var rest := reports[1..];
        FirstBlobIsEarliest(rest, digest);
        forall i | 0 <= i < |reports| ensures i > 0 ==> reports[i] == rest[i-1] {}
        if FirstBlob(rest, digest).Some? {
          var i :| 0 <= i < |rest| && HasResult(rest[i], digest) && rest[i].encryptedResult == FirstBlob(rest, digest)
            && forall j :: 0 <= j < i ==> !HasResult(rest[j], digest);
          assert reports[i+1] == rest[i];
          forall j | 0 <= j < i + 1 ensures !HasResult(reports[j], digest) {
            assert j > 0 ==> reports[j] == rest[j-1];
          }
        }
      }
    }
  }

  /** The weights of those paid are those of the digest's reporters. */
  lemma {:induction false} BackingWeight(ps: map<ParticipantId, Participant>, reports: seq<TaskReport>, digest: string)
    ensures WrappedWeight(Weighted(ps, Backers(reports, digest))) == Wrap(Support(ps, reports, digest))
  {
    RunningWeightWraps(ps, reports, digest);
    BackingRunning(ps, reports, digest);
  }

  lemma {:induction false} BackingRunning(ps: map<ParticipantId, Participant>, reports: seq<TaskReport>, digest: string)
    ensures WrappedWeight(Weighted(ps, Backers(reports, digest))) == RunningWeight(ps, reports, digest)
  {
    if reports != [] {
      var init, last := reports[..|reports|-1], reports[|reports|-1];
      BackingRunning(ps, init, digest);
      if last.resultDigest == digest {
        var ws := Backers(init, digest);
        assert Backers(reports, digest)[..|ws|] == ws;
        assert Weighted(ps, ws + [last.workerId])[..|ws|] == Weighted(ps, ws);
      }
    }
  }

  /** What the record of a decided task says. */
  ghost predicate RightRecord(ps: map<ParticipantId, Participant>, before: Task, after: Task) {
    && after == before.(status := after.status, encryptedResult := after.encryptedResult)
    && var agreed := ConsensusDigest(ps, before.reports, before.weightRequired);
    match after.status
    case Completed(digest, ws) =>
      && agreed == Some(digest) && !IsBudgetExhausted(digest) && Wrap(Support(ps, before.reports, digest)) != 0
      && InReportOrder(ws, before.reports, digest) && EarliestResult(after.encryptedResult, before.reports, digest)
    case QuotaExhausted(digest, ws) =>
      && agreed == Some(digest) && IsBudgetExhausted(digest)
      && InReportOrder(ws, before.reports, digest) && EarliestResult(after.encryptedResult, before.reports, digest)
    case Rejected =>
      && after.encryptedResult == before.encryptedResult
      && (if agreed.None? then |before.reports| >= before.maxReports
          else !IsBudgetExhausted(agreed.value) && Wrap(Support(ps, before.reports, agreed.value)) == 0)
    case Pending =>
      after.encryptedResult == before.encryptedResult && agreed.None? && |before.reports| < before.maxReports
    case Assigned(_, _) => false
  }

  lemma RejectRecords(s: NetState, t: TaskId)
    requires Limbo(s, t)
    ensures var r := Reject(s, t).state; t in r.tasks && r.tasks[t] == s.tasks[t].(status := Rejected)
  {
    hide AdjustEach;
    RejectConsistent(s, t);
  }

  lemma {:induction false} ConsensusIsBacked(ps: map<ParticipantId, Participant>, reports: seq<TaskReport>,
      required: u64)
    requires ConsensusDigest(ps, reports, required).Some?
    ensures Backers(reports, ConsensusDigest(ps, reports, required).value) != []
  {
    ConsensusFromFirst(ps, reports, required, 0);
    var digest := ConsensusDigest(ps, reports, required).value;
    var i :| 0 <= i < |reports| && reports[i].resultDigest == digest;
    ListsSayWho(reports, digest, reports[i].workerId);
    assert Backs(reports, digest, reports[i].workerId);
  }

  lemma FinalizeRecords(s: NetState, t: TaskId, digest: string)
    requires Limbo(s, t) && ConsensusDigest(s.participants, s.tasks[t].reports, s.tasks[t].weightRequired)
      == Some(digest)
    ensures var r := Finalize(s, t, digest).state; t in r.tasks && RightRecord(s.participants, s.tasks[t], r.tasks[t])
  {
    hide Reject, Placed, Sound, Shape, AdjustEach, Distribute, RewardTxs, Weighted, WrappedWeight, InReportOrder,
         EarliestResult, IsBudgetExhausted, ConsensusDigest, Support;
    var task := s.tasks[t];
    ConsensusIsBacked(s.participants, task.reports, task.weightRequired);
    BackersInOrder(task.reports, digest);
    FirstBlobIsEarliest(task.reports, digest);
    BackingWeight(s.participants, task.reports, digest);
    ReleaseLimbo(s, t);
    RejectRecords(Release(s, task.projectId, task.reward).state, t);
  }

  lemma ConcludeRecords(s: NetState, t: TaskId)
    requires Limbo(s, t)
    ensures var r := Conclude(s, t).state; t in r.tasks && RightRecord(s.participants, s.tasks[t], r.tasks[t])
  {
    hide Finalize, Reject, Placed, Sound, Shape, ConsensusDigest, InReportOrder, EarliestResult, IsBudgetExhausted;
    RejectRecords(s, t);
    match ConsensusDigest(s.participants, s.tasks[t].reports, s.tasks[t].weightRequired)
    case Some(digest) => FinalizeRecords(s, t, digest);
    case None =>
  }

  /** An accepted report is recorded as sent, and the record then follows from the
      reports, with the weights their authors have once due leases are taken back. */
  lemma VerdictFollowsReports(s: NetState, w: ParticipantId, t: TaskId, digest: string, cost: u64, blob: Option<Blob>)
    requires Consistent(s) && Submit(s, w, t, digest, cost, blob).out.Ok?
    ensures t in s.tasks
    ensures var r := Submit(s, w, t, digest, cost, blob).state;
      && t in r.tasks
      && var before := s.tasks[t].(reports := s.tasks[t].reports + [TaskReport(w, digest, cost, blob)]);
         RightRecord(Reclaim(s).participants, before.(status := r.tasks[t].status), r.tasks[t])
  {
    hide Reclaim, Conclude, Placed, Sound, Shape, ConsensusDigest, InReportOrder, EarliestResult, IsBudgetExhausted,
         Support;
    var s1, s2 := SubmitUnfolded(s, w, t, digest, cost, blob);
    ReclaimTasks(s);
    ConcludeRecords(s2, t);
  }

  // -------------------------------------------------------------------- quotas

  /** The available quota of a project, and what one verdict returns to it. */
  ghost predicate Returns(s: NetState, r: NetState, t: TaskId) {
    && t in s.tasks && t in r.tasks && r.projects.Keys == s.projects.Keys
    && forall p :: p in s.projects ==>
         r.projects[p].quotaAvailable ==
           if p == s.tasks[t].projectId && r.tasks[t].status.Rejected?
           then Add(s.projects[p].quotaAvailable, s.tasks[t].reward)
           else s.projects[p].quotaAvailable
  }

  lemma RejectReturns(s: NetState, t: TaskId)
    requires Limbo(s, t)
    ensures Returns(s, Reject(s, t).state, t) && Reject(s, t).state.tasks[t].status.Rejected?
  {
    hide AdjustEach, Placed;
  }

  lemma FinalizeReturns(s: NetState, t: TaskId, digest: string)
    requires Limbo(s, t)
    ensures Returns(s, Finalize(s, t, digest).state, t)
  {
    hide Release, Placed, Sound, Reject, Settle, Exhaust, Weighted, WrappedWeight, IsBudgetExhausted;
    var task := s.tasks[t];
    RejectReturns(s, t);
    ReleaseLimbo(s, t);
    ReleaseReturns(s, t);
    ExhaustReturns(s, t, digest, Backers(task.reports, digest), FirstBlob(task.reports, digest));
    var s1 := Release(s, task.projectId, task.reward).state;
    RejectReturns(s1, t);
    var winners := Weighted(s.participants, Backers(task.reports, digest));
    if WrappedWeight(winners) > 0 {
      SettleReturns(s1, t, digest, winners);
    }
  }

  lemma ReleaseReturns(s: NetState, t: TaskId)
    requires Limbo(s, t)
    ensures var r := Release(s, s.tasks[t].projectId, s.tasks[t].reward).state;
      && r.projects.Keys == s.projects.Keys
      && forall p :: p in s.projects ==> r.projects[p].quotaAvailable == s.projects[p].quotaAvailable
  {
    hide Placed;
  }

  lemma ExhaustReturns(s: NetState, t: TaskId, digest: string, ws: seq<ParticipantId>, blob: Option<Blob>)
    requires Limbo(s, t)
    ensures Returns(s, Exhaust(s, t, digest, ws, blob).state, t)
  {
    hide Placed;
  }

  lemma {:induction false} SettleReturns(s: NetState, t: TaskId, digest: string, winners: seq<Winner>)
    requires t in s.tasks && WrappedWeight(winners) > 0
    ensures Returns(s, Settle(s, t, digest, winners), t)
  {
    hide AdjustEach, Distribute, RewardTxs;
  }

  lemma ConcludeReturns(s: NetState, t: TaskId)
    requires Limbo(s, t)
    ensures Returns(s, Conclude(s, t).state, t)
  {
    hide Finalize, Reject, Placed, Sound, Shape, ConsensusDigest;
    RejectReturns(s, t);
    match ConsensusDigest(s.participants, s.tasks[t].reports, s.tasks[t].weightRequired)
    case Some(digest) => FinalizeReturns(s, t, digest);
    case None =>
  }

  lemma {:induction false} ReclaimAllProjects(s: NetState, ids: seq<TaskId>)
    ensures ReclaimAll(s, ids).projects == s.projects
  {
    if ids != [] {
      ReclaimAllProjects(s, ids[..|ids|-1]);
    }
  }

  lemma ReclaimProjects(s: NetState)
    ensures Reclaim(s).projects == s.projects
  {
    hide ReclaimAll, Slashes, ExpiredIds;
    ReclaimAllProjects(s, ExpiredIds(s));
  }

  /** What becomes of a project's available quota in one operation, whatever it is. */
  function AvailableAfter(s: NetState, op: LedgerOp, p: ProjectId, rejected: bool): u64
    requires p in s.projects
  {
    var project := s.projects[p];
    match op
    case FundProject(who, q, amount) =>
      if q == p && who == project.ownerId && who in s.participants && amount <= s.BalanceOf(who)
      then Add(project.quotaAvailable, amount) else project.quotaAvailable
    case DonateToProject(who, q, amount) =>
      if q == p && who in s.participants && amount <= s.BalanceOf(who)
      then Add(project.quotaAvailable, amount) else project.quotaAvailable
    case SubmitTask(who, q, reward, _) =>
      if q == p && who == project.ownerId && reward <= project.quotaAvailable
      then project.quotaAvailable - reward else project.quotaAvailable
    case SubmitResult(_, t, _, _, _) =>
      if t in s.tasks && s.tasks[t].projectId == p && rejected
      then Add(project.quotaAvailable, s.tasks[t].reward) else project.quotaAvailable
    case _ => project.quotaAvailable
  }

  /** The operation rejects the task it reports on. */
  ghost predicate Rejects(s: NetState, op: LedgerOp) {
    && op.SubmitResult? && op.taskId in s.tasks && s.tasks[op.taskId].status.Open()
    && op.taskId in Apply(s, op).tasks && Apply(s, op).tasks[op.taskId].status.Rejected?
  }

  lemma SubmitAvailable(s: NetState, w: ParticipantId, t: TaskId, digest: string, cost: u64, blob: Option<Blob>,
      p: ProjectId)
    requires Consistent(s) && p in s.projects
    ensures var op := SubmitResult(w, t, digest, cost, blob);
      && p in Apply(s, op).projects
      && Apply(s, op).projects[p].quotaAvailable == AvailableAfter(s, op, p, Rejects(s, op))
  {
    hide Reclaim, Conclude, Placed, Sound, Shape, Support;
    ReclaimProjects(s);
    ReclaimTasks(s);
    if Submit(s, w, t, digest, cost, blob).out.Ok? {
      var s1, s2 := SubmitUnfolded(s, w, t, digest, cost, blob);
      HeldTaskOpen(s1, t);
      ConcludeReturns(s2, t);
    } else {
      SubmitConsistent(s, w, t, digest, cost, blob);
    }
  }

  lemma AvailableExactly(s: NetState, op: LedgerOp, p: ProjectId)
    requires Consistent(s) && p in s.projects
    ensures p in Apply(s, op).projects
    ensures Apply(s, op).projects[p].quotaAvailable == AvailableAfter(s, op, p, Rejects(s, op))
  {
    hide Reclaim, Submit, BestTask, Balance, FundMemo, Enqueue;
    match op {
      case SubmitResult(w, t, digest, cost, blob) => SubmitAvailable(s, w, t, digest, cost, blob, p);
      case RequestTask(w, _) => ReclaimProjects(s);
      case Tick(n) => ReclaimProjects(s.(now := SatAdd(s.now, n)));
      case _ =>
    }
  }

  /** The arithmetic that would take a quota past 64 bits. */
  predicate WrapsQuota(s: NetState, op: LedgerOp, p: ProjectId)
    requires p in s.projects
  {
    match op
    case FundProject(_, q, amount) => q == p && s.projects[p].quotaAvailable + amount >= LIMIT
    case DonateToProject(_, q, amount) => q == p && s.projects[p].quotaAvailable + amount >= LIMIT
    case SubmitResult(_, t, _, _, _) =>
      t in s.tasks && s.tasks[t].projectId == p && s.projects[p].quotaAvailable + s.tasks[t].reward >= LIMIT
    case _ => false
  }

  /** What a task's owner asks to have locked for it in a log. */
  function Drawn(ops: seq<LedgerOp>, owner: ParticipantId, p: ProjectId): nat {
    if ops == [] then 0
    else
      var op := ops[|ops|-1];
      Drawn(ops[..|ops|-1], owner, p)
        + if op.SubmitTask? && op.ownerId == owner && op.projectId == p then op.reward else 0
  }

  /** Nothing but a task of its owner takes from a project's available quota, unless the
      sum wraps. */
  lemma OnlyOwnersDraw(s: NetState, op: LedgerOp, p: ProjectId)
    requires Consistent(s) && p in s.projects
    ensures p in Apply(s, op).projects
    ensures Apply(s, op).projects[p].quotaAvailable < s.projects[p].quotaAvailable ==>
      || WrapsQuota(s, op, p)
      || (op.SubmitTask? && op.projectId == p && op.ownerId == s.projects[p].ownerId
          && Apply(s, op).projects[p].quotaAvailable == s.projects[p].quotaAvailable - op.reward)
  {
    hide Apply, Consistent, Balance;
    AvailableExactly(s, op, p);
  }

  /** In runs that fit, no sum does wrap where it is formed. */
  lemma SumsFit(s: NetState, n: nat, op: LedgerOp, p: ProjectId)
    requires Consistent(s) && Quotas(s, n, false) && p in s.projects
    requires op.SubmitResult? ==> Rejects(s, op)
    requires op.FundProject? ==> Fund(s, op.ownerId, op.projectId, op.amount).out.Ok?
    requires op.DonateToProject? ==> Donate(s, op.supporterId, op.projectId, op.amount).out.Ok?
    ensures !WrapsQuota(s, op, p)
  {
    hide Apply, Raw, Covered, Minted, LockedSum, Placed;
    QuotaFits(s, n, p);
    match op {
      case FundProject(who, q, amount) => DonationFits(s, n, who, q, amount);
      case DonateToProject(who, q, amount) => DonationFits(s, n, who, q, amount);
      case SubmitResult(_, t, _, _, _) =>
        assert Sound(s, t);
        if s.tasks[t].projectId == p {
          LockedAtLeast(s.tasks, p, s.nextTask, t);
        }
      case _ =>
    }
  }

  lemma DonationFits(s: NetState, n: nat, who: ParticipantId, p: ProjectId, amount: u64)
    requires Consistent(s) && Quotas(s, n, false) && Donate(s, who, p, amount).out.Ok?
    ensures s.projects[p].quotaAvailable + amount < LIMIT
  {
    hide Raw, Covered, Minted, LockedSum, Placed, Sound;
    assert who != ProjectAddress(p);
    BalanceAtMostClamp(s.Txs(), who);
    TwoAccountsBounded(s.Txs(), who, ProjectAddress(p));
  }

  lemma OnlyOwnersDrawFitting(s: NetState, n: nat, op: LedgerOp, p: ProjectId)
    requires Consistent(s) && Quotas(s, n, false) && p in s.projects
    ensures p in Apply(s, op).projects
    ensures Apply(s, op).projects[p].quotaAvailable < s.projects[p].quotaAvailable ==>
      op.SubmitTask? && op.projectId == p && op.ownerId == s.projects[p].ownerId
      && Apply(s, op).projects[p].quotaAvailable == s.projects[p].quotaAvailable - op.reward
  {
    hide Consistent, Quotas, Balance, Submit;
    AvailableExactly(s, op, p);
    OnlyOwnersDraw(s, op, p);
    if Apply(s, op).projects[p].quotaAvailable < s.projects[p].quotaAvailable && WrapsQuota(s, op, p) {
      SumsFit(s, n, op, p);
    }
  }

  /** Over every continuation of a run that fits, a project keeps its owner, and what its
      available quota loses is what that owner had locked for tasks: whatever anyone else
      submits, and however often. */
  lemma {:induction false} QuotaFallsOnlyByOwner(config: Config, before: seq<LedgerOp>, after: seq<LedgerOp>, n: nat,
      minted: nat,
      bound: nat, p: ProjectId)
    requires Fits(config, before + after, n, minted, bound) && p in ApplyAll(Fresh(config), before).projects
    ensures var s := ApplyAll(Fresh(config), before); var r := ApplyAll(Fresh(config), before + after);
      && p in r.projects && r.projects[p].ownerId == s.projects[p].ownerId
      && s.projects[p].quotaAvailable <= r.projects[p].quotaAvailable + Drawn(after, s.projects[p].ownerId, p)
  {
    hide Apply, Fresh, Consistent, Quotas, Fits, Mild;
    if after == [] {
      assert before + after == before;
    } else {
      var k := |after| - 1;
      var run := before + after[..k];
      assert (before + after)[..|before + after|-1] == run;
      FitsPrefix(config, before + after, n, minted, bound);
      QuotaFallsOnlyByOwner(config, before, after[..k], n, minted, bound, p);
      ReachableQuotas(config, run, n, minted, bound, false);
      var m := ApplyAll(Fresh(config), run);
      OnlyOwnersDrawFitting(m, n, after[k], p);
      NothingIsRewritten(m, after[k]);
    }
  }
}
