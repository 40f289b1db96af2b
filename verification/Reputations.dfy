/** What operations do to reputations, in terms of the amounts configured and of who
    reported what: the weights of every later consensus and payout. */
module Reputations {
  import opened Words
  import opened Sequences
  import opened Model
  import opened Reward
  import opened NetworkSpec
  import opened TaskInvariants
  import opened TaskOutcomes
  import opened QuotaInvariants
  import opened QuotaRuns
  import opened Solvency

  // ------------------------------------------------------------ the two amounts

  /** Reputation after `n` penalties. A penalty of more than half the range reads as a
      negative number and is a gain. */
  function Penalised(reputation: u64, penalty: u64, n: nat): u64
    requires reputation >= 1
  {
    if penalty <= HALF then
      NoNegativeProduct(n, penalty);
      if reputation - n * penalty >= 1 then reputation - n * penalty else 1
    else
      NoNegativeProduct(n, LIMIT - penalty);
      if reputation + n * (LIMIT - penalty) < LIMIT then reputation + n * (LIMIT - penalty) else MAX
  }

  lemma NoNegativeProduct(n: nat, x: nat)
    ensures n * x >= 0
  {}

  /** Reputation after one reward; from half the range on it is a loss. */
  function Praised(reputation: u64, reward: u64): u64 {
    if reward < HALF then (if reputation + reward < LIMIT then reputation + reward else MAX)
    else if reputation - (LIMIT - reward) >= 1 then reputation - (LIMIT - reward)
    else 1
  }

  lemma PenaltyIs(c: Config, reputation: u64)
    requires reputation >= 1
    ensures Adjusted(reputation, PenaltyDelta(c)) == Penalised(reputation, c.reputationPenalty, 1)
  {}

  lemma RewardIs(c: Config, reputation: u64)
    requires reputation >= 1
    ensures Adjusted(reputation, RewardDelta(c)) == Praised(reputation, c.reputationReward)
  {}

  lemma OnceMore(reputation: u64, penalty: u64, n: nat)
    requires reputation >= 1
    ensures Penalised(Penalised(reputation, penalty, n), penalty, 1) == Penalised(reputation, penalty, n + 1)
  {
    NextMultiple(n, penalty);
    NextMultiple(n, LIMIT - penalty);
    NoNegativeProduct(n, penalty);
    if penalty > HALF {
      NoNegativeProduct(n, LIMIT - penalty);
    }
  }

  // ------------------------------------------------------------------ lost leases

  /** The leases of a worker that are due. */
  function DueLeases(s: NetState, w: ParticipantId): set<TaskId> {
    set t | t in s.leases && s.leases[t].expiresAt <= s.now && s.leases[t].workerId == w
  }

  function HeldAmong(s: NetState, ids: seq<TaskId>, w: ParticipantId): set<TaskId>
    requires forall i :: 0 <= i < |ids| ==> ids[i] in s.leases
  {
    set i | 0 <= i < |ids| && s.leases[ids[i]].workerId == w :: ids[i]
  }

  lemma HeldAmongMore(s: NetState, init: seq<TaskId>, last: TaskId, w: ParticipantId)
    requires last in s.leases && forall i :: 0 <= i < |init| ==> init[i] in s.leases
    ensures forall i :: 0 <= i < |init + [last]| ==> (init + [last])[i] in s.leases
    ensures HeldAmong(s, init + [last], w) ==
      HeldAmong(s, init, w) + if s.leases[last].workerId == w then {last} else {}
  {
    var ids := init + [last];
    assert ids[|init|] == last;
    forall t | t in HeldAmong(s, init, w) ensures t in HeldAmong(s, ids, w) {
      var i :| 0 <= i < |init| && s.leases[init[i]].workerId == w && init[i] == t;
      assert ids[i] == t;
    }
  }

  lemma {:induction false} HeldIsCount(s: NetState, ids: seq<TaskId>, w: ParticipantId)
    requires Distinct(ids) && forall i :: 0 <= i < |ids| ==> ids[i] in s.leases
    ensures Held(s, ids, w) == |HeldAmong(s, ids, w)|
  {
    if ids != [] {
      var init, last := ids[..|ids|-1], ids[|ids|-1];
      assert ids == init + [last];
      HeldIsCount(s, init, w);
      HeldAmongMore(s, init, last, w);
      assert last !in HeldAmong(s, init, w);
    }
  }

  lemma {:induction false} HeldIsDue(s: NetState, w: ParticipantId)
    ensures Held(s, ExpiredIds(s), w) == |DueLeases(s, w)|
  {
    ExpiredIdsProperties(s);
    var ids := ExpiredIds(s);
    forall i | 0 <= i < |ids| ensures ids[i] in s.leases {
      assert ids[i] in ids;
    }
    HeldIsCount(s, ids, w);
    forall t | t in DueLeases(s, w) ensures t in HeldAmong(s, ids, w) {
      assert t in ids;
      var i :| 0 <= i < |ids| && ids[i] == t;
    }
    assert HeldAmong(s, ids, w) == DueLeases(s, w);
  }

  /** What one lost lease does to its holder, and to nobody else. */
  lemma OneLost(s: NetState, mid: NetState, t: TaskId, v: ParticipantId)
    requires t in s.leases && t in mid.leases && mid.leases[t] == s.leases[t]
    requires t in mid.tasks && mid.tasks[t].status.Assigned? && mid.config == s.config
    requires v in mid.participants && mid.participants[v].reputation >= 1
    ensures var r := ReclaimOne(mid, t);
      v in r.participants && r.participants[v] == mid.participants[v].(reputation :=
        if s.leases[t].workerId == v
        then Penalised(mid.participants[v].reputation, s.config.reputationPenalty, 1)
        else mid.participants[v].reputation)
  {
    hide PenaltyDelta, Adjusted;
    PenaltyIs(s.config, mid.participants[v].reputation);
  }

  lemma {:induction false} AllLost(s: NetState, ids: seq<TaskId>, v: ParticipantId)
    requires Consistent(s) && Distinct(ids) && forall i :: 0 <= i < |ids| ==> ids[i] in s.leases
    requires v in s.participants
    ensures var r := ReclaimAll(s, ids);
      v in r.participants && r.participants[v] ==
        s.participants[v].(reputation :=
          Penalised(s.participants[v].reputation, s.config.reputationPenalty, Held(s, ids, v)))
  {
    hide Sound, ReclaimOne, Penalised;
    if ids == [] {
      NoPenalty(s.participants[v].reputation, s.config.reputationPenalty);
    } else {
      var init, t := ids[..|ids|-1], ids[|ids|-1];
      assert ids == init + [t];
      AllLost(s, init, v);
      ReclaimAllLeases(s, init);
      ReclaimAllElsewhere(s, init, t);
      ReclaimAllParticipants(s, init);
      assert Placed(s, t);
      PenalisedAtLeastOne(s.participants[v].reputation, s.config.reputationPenalty, Held(s, init, v));
      OneLost(s, ReclaimAll(s, init), t, v);
      OnceMore(s.participants[v].reputation, s.config.reputationPenalty, Held(s, init, v));
    }
  }

  lemma PenalisedAtLeastOne(reputation: u64, penalty: u64, n: nat)
    requires reputation >= 1
    ensures Penalised(reputation, penalty, n) >= 1
  {
    NoNegativeProduct(n, penalty);
    if penalty > HALF {
      NoNegativeProduct(n, LIMIT - penalty);
    }
  }

  lemma NoPenalty(reputation: u64, penalty: u64)
    requires reputation >= 1
    ensures Penalised(reputation, penalty, 0) == reputation
  {}

  /** A reclaim takes one penalty from each participant for every lease of its that was
      due, and changes no one in any other way. */
  lemma ReclaimReputations(s: NetState, v: ParticipantId)
    requires Consistent(s) && v in s.participants
    ensures v in Reclaim(s).participants
    ensures Reclaim(s).participants[v] ==
      s.participants[v].(reputation :=
        Penalised(s.participants[v].reputation, s.config.reputationPenalty, |DueLeases(s, v)|))
  {
    hide ReclaimAll, Penalised, Held, ExpiredIds, DueLeases, Consistent;
    ExpiredIdsProperties(s);
    var ids := ExpiredIds(s);
    forall i | 0 <= i < |ids| ensures ids[i] in s.leases {
      assert ids[i] in ids;
    }
    HeldIsDue(s, v);
    AllLost(s, ids, v);
  }

  // ------------------------------------------------------------------ settlements

  lemma {:induction false} EachAdjusted(ps: map<ParticipantId, Participant>, ws: seq<ParticipantId>, delta: int,
      v: ParticipantId)
    requires -HALF <= delta < HALF && Distinct(ws) && v in ps
    ensures v in AdjustEach(ps, ws, delta)
    ensures AdjustEach(ps, ws, delta)[v] ==
      if v in ws then ps[v].(reputation := Adjusted(ps[v].reputation, delta)) else ps[v]
  {
    hide Adjusted;
    if ws != [] {
      var init, last := ws[..|ws|-1], ws[|ws|-1];
      assert ws == init + [last];
      EachAdjusted(ps, init, delta, v);
      assert last !in init;
    }
  }

  predicate Backs(reports: seq<TaskReport>, digest: string, v: ParticipantId) {
    exists i :: 0 <= i < |reports| && reports[i].workerId == v && reports[i].resultDigest == digest
  }

  predicate Opposes(reports: seq<TaskReport>, digest: string, v: ParticipantId) {
    exists i :: 0 <= i < |reports| && reports[i].workerId == v && reports[i].resultDigest != digest
  }

  lemma {:induction false} ListsSayWho(reports: seq<TaskReport>, digest: string, v: ParticipantId)
    ensures v in Backers(reports, digest) <==> Backs(reports, digest, v)
    ensures v in Dissenters(reports, digest) <==> Opposes(reports, digest, v)
    ensures v in Reporters(reports) <==> Backs(reports, digest, v) || Opposes(reports, digest, v)
  {
    if reports != [] {
      var init, last := reports[..|reports|-1], reports[|reports|-1];
      ListsSayWho(init, digest, v);
      assert reports == init + [last];
      assert Backs(reports, digest, v) <==>
        Backs(init, digest, v) ||
          (last.workerId == v && last.resultDigest == digest) by { OneMoreBacks(init, last, digest, v); }
      assert Opposes(reports, digest, v) <==>
        Opposes(init, digest, v) ||
          (last.workerId == v && last.resultDigest != digest) by { OneMoreBacks(init, last, digest, v); }
    }
  }

  lemma OneMoreBacks(init: seq<TaskReport>, last: TaskReport, digest: string, v: ParticipantId)
    ensures Backs(init + [last], digest, v) <==>
      Backs(init, digest, v) || (last.workerId == v && last.resultDigest == digest)
    ensures Opposes(init + [last], digest, v) <==>
      Opposes(init, digest, v) || (last.workerId == v && last.resultDigest != digest)
  {
    var all := init + [last];
    assert all[|init|] == last;
    forall i | 0 <= i < |init| ensures all[i] == init[i] {}
    if Backs(init, digest, v) {
      var i :| 0 <= i < |init| && init[i].workerId == v && init[i].resultDigest == digest;
      assert all[i] == init[i];
    }
    if Opposes(init, digest, v) {
      var i :| 0 <= i < |init| && init[i].workerId == v && init[i].resultDigest != digest;
      assert all[i] == init[i];
    }
  }

  /** What a verdict on its task does to one participant. */
  function AfterVerdict(c: Config, before: Participant, task: Task, after: TaskStatus, v: ParticipantId): Participant
    requires before.reputation >= 1
  {
    match after
    case Completed(digest, _) =>
      before.(reputation :=
        if Backs(task.reports, digest, v) then Praised(before.reputation, c.reputationReward)
        else if Opposes(task.reports, digest, v) then Penalised(before.reputation, c.reputationPenalty, 1)
        else before.reputation)
    case Rejected =>
      before.(reputation :=
        if Backs(task.reports, "", v) || Opposes(task.reports, "", v)
        then Penalised(before.reputation, c.reputationPenalty, 1)
        else before.reputation)
    case _ => before
  }

  lemma {:induction false} DistinctLists(s: NetState, t: TaskId, digest: string)
    requires t in s.tasks && Sound(s, t)
    ensures var reports := s.tasks[t].reports;
      Distinct(Backers(reports, digest)) && Distinct(Dissenters(reports, digest)) && Distinct(Reporters(reports))
    ensures forall v :: !(Backs(s.tasks[t].reports, digest, v) && Opposes(s.tasks[t].reports, digest, v))
  {
    TaskReportersDistinct(s, t);
    ListsDistinct(s.tasks[t].reports, digest);
  }

  lemma RejectReputations(s: NetState, t: TaskId, v: ParticipantId)
    requires Limbo(s, t) && v in s.participants
    ensures var r := Reject(s, t).state;
      && v in r.participants && t in r.tasks && r.tasks[t].status == Rejected
      && r.participants[v] == AfterVerdict(s.config, s.participants[v], s.tasks[t], Rejected, v)
  {
    hide PenaltyDelta, Adjusted, Placed, Sound, Penalised;
    RejectConsistent(s, t);
    ReleaseLimbo(s, t);
    DistinctLists(s, t, "");
    ListsSayWho(s.tasks[t].reports, "", v);
    EachAdjusted(s.participants, Reporters(s.tasks[t].reports), PenaltyDelta(s.config), v);
    PenaltyIs(s.config, s.participants[v].reputation);
  }

  lemma {:induction false} SettleReputations(s: NetState, t: TaskId, digest: string, winners: seq<Winner>,
      v: ParticipantId)
    requires Limbo(s, t) && v in s.participants && WrappedWeight(winners) > 0
    ensures var r := Settle(s, t, digest, winners);
      && v in r.participants && t in r.tasks && r.tasks[t].status.Completed? &&
           r.tasks[t].status.acceptedDigest == digest
      && r.participants[v] == AfterVerdict(s.config, s.participants[v], s.tasks[t], r.tasks[t].status, v)
  {
    hide PenaltyDelta, RewardDelta, Adjusted, Placed, Sound, Penalised, Praised, Distribute, RewardTxs;
    var reports := s.tasks[t].reports;
    DistinctLists(s, t, digest);
    ListsSayWho(reports, digest, v);
    EachAdjusted(s.participants, Backers(reports, digest), RewardDelta(s.config), v);
    EachAdjusted(AdjustEach(s.participants, Backers(reports, digest), RewardDelta(s.config)),
                 Dissenters(reports, digest), PenaltyDelta(s.config), v);
    PenaltyIs(s.config, s.participants[v].reputation);
    RewardIs(s.config, s.participants[v].reputation);
  }

  /** Whatever becomes of a reported task, reputations follow from its new status and
      the reports. */
  lemma FinalizeReputations(s: NetState, t: TaskId, digest: string, v: ParticipantId)
    requires Limbo(s, t) && v in s.participants
    ensures var r := Finalize(s, t, digest).state;
      && v in r.participants && t in r.tasks
      && r.participants[v] == AfterVerdict(s.config, s.participants[v], s.tasks[t], r.tasks[t].status, v)
  {
    hide AfterVerdict, Placed, Sound, Settle, Reject, IsBudgetExhausted, Weighted, WrappedWeight;
    var task := s.tasks[t];
    var workers := Backers(task.reports, digest);
    var winners := Weighted(s.participants, workers);
    ReleaseLimbo(s, t);
    if workers == [] {
      RejectReputations(s, t, v);
    } else if IsBudgetExhausted(digest) {
      Undisputed(s, t, QuotaExhausted(digest, workers), v);
    } else {
      var s1 := Release(s, task.projectId, task.reward).state;
      if WrappedWeight(winners) == 0 {
        RejectReputations(s1, t, v);
      } else {
        SettleReputations(s1, t, digest, winners, v);
      }
    }
  }

  lemma Undisputed(s: NetState, t: TaskId, status: TaskStatus, v: ParticipantId)
    requires Shape(s) && t in s.tasks && v in s.participants && !status.Completed? && !status.Rejected?
    ensures AfterVerdict(s.config, s.participants[v], s.tasks[t], status, v) == s.participants[v]
  {}

  lemma ConcludeReputations(s: NetState, t: TaskId, v: ParticipantId)
    requires Limbo(s, t) && v in s.participants
    ensures var r := Conclude(s, t).state;
      && v in r.participants && t in r.tasks
      && r.participants[v] == AfterVerdict(s.config, s.participants[v], s.tasks[t], r.tasks[t].status, v)
  {
    hide AfterVerdict, Placed, Sound, Finalize, Reject, ConsensusDigest;
    match ConsensusDigest(s.participants, s.tasks[t].reports, s.tasks[t].weightRequired)
    case Some(digest) => FinalizeReputations(s, t, digest, v);
    case None =>
      RejectReputations(s, t, v);
      if |s.tasks[t].reports| < s.tasks[t].maxReports {
        Undisputed(s, t, Pending, v);
      }
  }

  /** A report's effect on every participant: first the penalties for leases that were
      due, then what the verdict says, if there is one. */
  lemma SubmitReputations(s: NetState, w: ParticipantId, t: TaskId, digest: string, cost: u64, blob: Option<Blob>,
      v: ParticipantId)
    requires Consistent(s) && v in s.participants && Submit(s, w, t, digest, cost, blob).out.Ok?
    ensures t in s.tasks
    ensures var r := Submit(s, w, t, digest, cost, blob).state;
      var lost := Penalised(s.participants[v].reputation, s.config.reputationPenalty, |DueLeases(s, v)|);
      && v in r.participants && t in r.tasks && lost >= 1
      && var reported := s.tasks[t].(reports := s.tasks[t].reports + [TaskReport(w, digest, cost, blob)]);
      r.participants[v] ==
        AfterVerdict(s.config, s.participants[v].(reputation := lost), reported, r.tasks[t].status, v)
  {
    hide AfterVerdict, Reclaim, Conclude, Penalised, DueLeases, Placed, Sound;
    var s1, s2 := SubmitUnfolded(s, w, t, digest, cost, blob);
    ReclaimReputations(s, v);
    ReclaimParticipants(s);
    ReclaimTasks(s);
    PenalisedAtLeastOne(s.participants[v].reputation, s.config.reputationPenalty, |DueLeases(s, v)|);
    ConcludeReputations(s2, t, v);
    SameReports(s.config, s1.participants[v], s2.tasks[t],
                s.tasks[t].(reports := s.tasks[t].reports + [TaskReport(w, digest, cost, blob)]),
                Conclude(s2, t).state.tasks[t].status, v);
  }

  lemma SameReports(c: Config, p: Participant, x: Task, y: Task, after: TaskStatus, v: ParticipantId)
    requires p.reputation >= 1 && x.reports == y.reports
    ensures AfterVerdict(c, p, x, after, v) == AfterVerdict(c, p, y, after, v)
  {}

  // ------------------------------------------------------------- every operation

  /** Every other operation leaves every participant as it is, but for the penalties
      of a reclaim; and newcomers start with a reputation of one. */
  lemma OtherReputations(s: NetState, op: LedgerOp, v: ParticipantId)
    requires Consistent(s) && v in s.participants && !op.SubmitResult?
    ensures v in Apply(s, op).participants
    ensures Apply(s, op).participants[v] ==
      match op
      case Tick(n) =>
        var later := s.(now := SatAdd(s.now, n));
        s.participants[v].(reputation :=
          Penalised(s.participants[v].reputation, s.config.reputationPenalty, |DueLeases(later, v)|))
      case RequestTask(w, _) =>
        if w in s.participants
        then s.participants[v].(reputation :=
               Penalised(s.participants[v].reputation, s.config.reputationPenalty, |DueLeases(s, v)|))
        else s.participants[v]
      case _ => s.participants[v]
  {
    hide Reclaim, Penalised, DueLeases, Consistent, BestTask;
    match op {
      case Tick(n) =>
        ReclaimedConsistent(s, op);
        ReclaimReputations(s.(now := SatAdd(s.now, n)), v);
      case RequestTask(w, _) => ReclaimReputations(s, v);
      case _ =>
    }
  }
}
