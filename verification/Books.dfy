/** Exactly when each operation keeps the books: the quota fields in step with the
    ledger and the locked part with the open tasks, for all amounts and weights and
    with accounts registered at any address. */
module Books {
  import opened Words
  import opened Sequences
  import opened Ledger
  import opened Model
  import opened Reward
  import opened NetworkSpec
  import opened TaskInvariants
  import opened TaskOutcomes
  import opened QuotaInvariants
  import opened QuotaRuns
  import opened Solvency

  // ------------------------------------------------------------------ donations

  /** What a successful donation does to fields and balances of projects. */
  lemma DonationMoves(s: NetState, who: ParticipantId, p: ProjectId, amount: u64)
    requires Donate(s, who, p, amount).out.Ok?
    ensures var r := Donate(s, who, p, amount).state;
      && p in s.projects && r.nextProject == s.nextProject
      && r.projects == s.projects[p := s.projects[p].(quotaAvailable := Add(s.projects[p].quotaAvailable, amount))]
      && forall q: ProjectId ::
           Raw(r.Txs(), ProjectAddress(q)) == Raw(s.Txs(), ProjectAddress(q))
             + (if q == p then amount as int else 0) - (if ProjectAddress(q) == who then amount as int else 0)
  {
    hide Raw, Balance;
    var tx := Transfer(who, ProjectAddress(p), amount, FundMemo(p));
    OneTransaction(s, tx);
    assert Donate(s, who, p, amount).state.Txs() == Commit(s, [tx]).Txs();
  }

  /** A donation keeps fields and balances in step exactly when it moves nothing, or
      its sender's account is no project's and the field does not wrap. */
  lemma DonateKeepsBackedExactly(s: NetState, who: ParticipantId, p: ProjectId, amount: u64)
    requires BackedAhead(s) && Shape(s) && Donate(s, who, p, amount).out.Ok?
    ensures BackedAhead(Donate(s, who, p, amount).state) <==>
      amount == 0 || (!NamesProject(s, who) && s.projects[p].quotaAvailable + amount < LIMIT)
  {
    hide Raw, Donate;
    DonationMoves(s, who, p, amount);
    var r := Donate(s, who, p, amount).state;
    assert p in r.projects && p < s.nextProject;
    if amount != 0 && NamesProject(s, who) {
      DonorNamesProject(s, r, who, p, amount);
    } else {
      forall q: ProjectId | q in s.projects || q >= s.nextProject
        ensures amount != 0 ==> ProjectAddress(q) != who
      {
        assert NamesProject(s, ProjectAddress(q));
      }
    }
  }

  lemma DonorNamesProject(s: NetState, r: NetState, who: ParticipantId, p: ProjectId, amount: u64)
    requires BackedAhead(s) && NamesProject(s, who) && p in s.projects && amount != 0 && r.nextProject == s.nextProject
    requires r.projects == s.projects[p := s.projects[p].(quotaAvailable := Add(s.projects[p].quotaAvailable, amount))]
    requires forall q: ProjectId ::
      Raw(r.Txs(), ProjectAddress(q)) == Raw(s.Txs(), ProjectAddress(q))
        + (if q == p then amount as int else 0) - (if ProjectAddress(q) == who then amount as int else 0)
    ensures !BackedAhead(r)
  {
    hide Raw;
    var q: ProjectId := who - PROJECT_ID_OFFSET;
    assert ProjectAddress(q) == who;
    assert q in s.projects ==> q in r.projects;
  }

  // -------------------------------------------------------------------- reclaims

  /** No project's account is about to be slashed. */
  ghost predicate SparesProjects(s: NetState) {
    forall t :: t in s.leases && s.leases[t].expiresAt <= s.now && NamesProject(s, s.leases[t].workerId) ==>
      SlashPerLease(s, s.leases[t].workerId) == 0
  }

  lemma {:induction false} HeldSome(s: NetState, ids: seq<TaskId>, w: ParticipantId)
    ensures Held(s, ids, w) > 0 <==> exists i :: 0 <= i < |ids| && ids[i] in s.leases && s.leases[ids[i]].workerId == w
  {
    if ids != [] {
      var init := ids[..|ids|-1];
      HeldSome(s, init, w);
      if Held(s, init, w) > 0 {
        var i :| 0 <= i < |init| && init[i] in s.leases && s.leases[init[i]].workerId == w;
        assert ids[i] == init[i];
      }
      assert ids[|ids|-1] in s.leases && s.leases[ids[|ids|-1]].workerId == w ==> Held(s, ids, w) > 0;
    }
  }

  lemma NoProduct(k: nat, x: nat)
    ensures k * x == 0 <==> k == 0 || x == 0
  {}

  lemma {:induction false} ProjectSpared(s: NetState, a: Address)
    requires Consistent(s)
    ensures Raw(Reclaim(s).Txs(), a) == Raw(s.Txs(), a) <==>
      forall t :: t in s.leases && s.leases[t].expiresAt <= s.now && s.leases[t].workerId == a ==>
        SlashPerLease(s, a) == 0
  {
    hide Raw, Reclaim, SlashPerLease, Consistent;
    ReclaimTakes(s, a);
    ExpiredIdsProperties(s);
    HeldSome(s, ExpiredIds(s), a);
    NoProduct(Held(s, ExpiredIds(s), a), SlashPerLease(s, a));
    if t :| t in s.leases && s.leases[t].expiresAt <= s.now && s.leases[t].workerId == a {
      assert t in ExpiredIds(s);
    }
  }

  /** A reclaim keeps them in step exactly when it slashes no project's account. */
  lemma ReclaimKeepsBackedExactly(s: NetState)
    requires Consistent(s) && BackedAhead(s)
    ensures BackedAhead(Reclaim(s)) <==> SparesProjects(s)
  {
    hide Raw, Reclaim, SlashPerLease, Consistent;
    ReclaimParticipants(s);
    forall a: Address
      ensures Raw(Reclaim(s).Txs(), a) == Raw(s.Txs(), a) <==>
        forall t :: t in s.leases && s.leases[t].expiresAt <= s.now && s.leases[t].workerId == a ==>
          SlashPerLease(s, a) == 0
    {
      ProjectSpared(s, a);
    }
    if SparesProjects(s) {
      forall p: ProjectId | p in s.projects || p >= s.nextProject
        ensures Raw(Reclaim(s).Txs(), ProjectAddress(p)) == Raw(s.Txs(), ProjectAddress(p))
      {
        assert NamesProject(s, ProjectAddress(p));
      }
    } else {
      var t :| t in s.leases && s.leases[t].expiresAt <= s.now && NamesProject(s, s.leases[t].workerId)
               && SlashPerLease(s, s.leases[t].workerId) != 0;
      NamedProjectMoves(s, Reclaim(s), s.leases[t].workerId);
    }
  }

  // ---------------------------------------------------------------- closing a task

  /** Everything but task `t` and the fields of its project stays. */
  ghost predicate Closes(s: NetState, r: NetState, t: TaskId) {
    && t in s.tasks && s.tasks[t].projectId in s.projects && t < s.nextTask
    && r.tasks.Keys == s.tasks.Keys && !r.tasks[t].status.Open()
    && (forall u :: u in s.tasks && u != t ==> r.tasks[u] == s.tasks[u])
    && r.nextTask == s.nextTask && r.nextProject == s.nextProject && r.projects.Keys == s.projects.Keys
    && forall q :: q in s.projects && q != s.tasks[t].projectId ==> r.projects[q] == s.projects[q]
  }

  lemma ClosesLockedExactly(s: NetState, r: NetState, t: TaskId)
    requires Closes(s, r, t) && LockedExact(s) && s.tasks[t].status.Open()
    ensures var p := s.tasks[t].projectId;
      LockedExact(r) <==> r.projects[p].quotaLocked == s.projects[p].quotaLocked - s.tasks[t].reward
  {
    hide LockedSum;
    var p := s.tasks[t].projectId;
    forall q | q in s.projects
      ensures LockedSum(r.tasks, q, r.nextTask) == LockedSum(s.tasks, q, s.nextTask) - if q
        == p then s.tasks[t].reward else 0
    {
      LockedChange(s.tasks, r.tasks, q, s.nextTask, t);
    }
  }

  /** The balances of all project accounts but that of task `t`'s project stay. */
  ghost predicate OnlyPays(s: NetState, r: NetState, t: TaskId)
    requires t in s.tasks
  {
    forall a: Address :: NamesProject(s, a) && a != ProjectAddress(s.tasks[t].projectId) ==>
      Raw(r.Txs(), a) == Raw(s.Txs(), a)
  }

  lemma ClosesBackedExactly(s: NetState, r: NetState, t: TaskId)
    requires Closes(s, r, t) && BackedAhead(s) && Shape(s)
    ensures var p := s.tasks[t].projectId; var was := s.projects[p]; var now := r.projects[p];
      BackedAhead(r) <==>
        && OnlyPays(s, r, t)
        && Raw(r.Txs(), ProjectAddress(p)) - Raw(s.Txs(), ProjectAddress(p))
           == now.quotaAvailable + now.quotaLocked - was.quotaAvailable - was.quotaLocked
  {
    hide Raw;
    var p := s.tasks[t].projectId;
    if BackedAhead(r) {
      forall a: Address | NamesProject(s, a) && a != ProjectAddress(p) ensures Raw(r.Txs(), a) == Raw(s.Txs(), a) {
        var q := a - PROJECT_ID_OFFSET;
        assert ProjectAddress(q) == a;
      }
    }
    if OnlyPays(s, r, t) {
      forall q: ProjectId | (q in s.projects && q != p) || q >= s.nextProject
        ensures Raw(r.Txs(), ProjectAddress(q)) == Raw(s.Txs(), ProjectAddress(q))
      {
        assert NamesProject(s, ProjectAddress(q));
      }
    }
  }

  /** The reward of an open task is part of what its project has locked. */
  lemma OpenIsLocked(s: NetState, t: TaskId)
    requires Limbo(s, t) && LockedExact(s) && s.tasks[t].status.Open()
    ensures s.tasks[t].reward <= s.projects[s.tasks[t].projectId].quotaLocked
  {
    LockedAtLeast(s.tasks, s.tasks[t].projectId, s.nextTask, t);
  }

  // ---------------------------------------------------------------- settlements

  /** What the listed shares bring one account. */
  function PaidTo(shares: seq<Share>, a: Address): nat {
    if shares == [] then 0
    else PaidTo(shares[..|shares|-1], a) + if shares[|shares|-1].id == a then shares[|shares|-1].amount else 0
  }

  lemma {:induction false} RewardFlow(txs: seq<Transaction>, from: Address, t: TaskId, shares: seq<Share>, a: Address)
    ensures Raw(txs + RewardTxs(from, t, shares), a) ==
      Raw(txs, a) + PaidTo(shares, a) - if a == from then Paid(shares) else 0
  {
    if shares == [] {
      assert txs + [] == txs;
    } else {
      var init, last := shares[..|shares|-1], shares[|shares|-1];
      RewardFlow(txs, from, t, init, a);
      if last.amount > 0 {
        RawSnoc(txs, RewardTxs(from, t, init), Transfer(from, last.id, last.amount, RewardMemo(t)), a);
      }
    }
  }

  lemma {:induction false} PaidToNobody(shares: seq<Share>, a: Address)
    ensures PaidTo(shares, a) <= Paid(shares)
    ensures PaidTo(shares, a) == 0 <==> forall i :: 0 <= i < |shares| && shares[i].id == a ==> shares[i].amount == 0
  {
    if shares != [] {
      var init, last := shares[..|shares|-1], shares[|shares|-1];
      PaidToNobody(init, a);
      assert forall i :: 0 <= i < |init| ==> shares[i] == init[i];
    }
  }

  /** What the settlement of task `t` pays its winners. */
  function Payout(s: NetState, t: TaskId, winners: seq<Winner>): seq<Share>
    requires t in s.tasks && WrappedWeight(winners) > 0
  {
    Distribute(s.tasks[t].reward, WrappedWeight(winners), winners)
  }

  function Settlement(s: NetState, t: TaskId, digest: string, winners: seq<Winner>): NetState
    requires t in s.tasks && WrappedWeight(winners) > 0
    requires Release(s, s.tasks[t].projectId, s.tasks[t].reward).state.tasks == s.tasks
  {
    Settle(Release(s, s.tasks[t].projectId, s.tasks[t].reward).state, t, digest, winners)
  }

  lemma {:induction false} SettlementCloses(s: NetState, t: TaskId, digest: string, winners: seq<Winner>)
    requires Limbo(s, t) && WrappedWeight(winners) > 0
    ensures Release(s, s.tasks[t].projectId, s.tasks[t].reward).state.tasks == s.tasks
    ensures var r := Settlement(s, t, digest, winners); var p := s.tasks[t].projectId;
      && Closes(s, r, t) && r.participants.Keys == s.participants.Keys
      && r.projects[p] == s.projects[p].(quotaLocked := SatSub(s.projects[p].quotaLocked, s.tasks[t].reward))
      && r.Txs() == s.Txs() + RewardTxs(ProjectAddress(p), t, Payout(s, t, winners))
  {
    hide Placed, Consistent, Distribute, RewardTxs, Flatten, Backers;
    ReleaseLimbo(s, t);
    var s1 := Release(s, s.tasks[t].projectId, s.tasks[t].reward).state;
    SettleTxs(s1, t, digest, winners);
    SettleFrame(s1, t, digest, winners);
    SettleConsistent(s1, t, digest, winners);
  }

  /** Settling keeps them in step exactly when the reward is what leaves the project's
      account and no project is paid, whoever the winners are and whatever their
      weights. */
  lemma {:induction false} SettleFlowExactly(s: NetState, t: TaskId, digest: string, winners: seq<Winner>)
    requires Limbo(s, t) && BackedAhead(s) && LockedExact(s) && s.tasks[t].status.Open()
    requires WrappedWeight(winners) > 0
    ensures Release(s, s.tasks[t].projectId, s.tasks[t].reward).state.tasks == s.tasks
    ensures var paid := Payout(s, t, winners); var from := ProjectAddress(s.tasks[t].projectId);
      BackedAhead(Settlement(s, t, digest, winners)) <==>
        && Paid(paid) - PaidTo(paid, from) == s.tasks[t].reward
        && forall a: Address :: NamesProject(s, a) && a != from ==> PaidTo(paid, a) == 0
  {
    hide Placed, Consistent, Raw, Distribute, RewardTxs, Settlement, Paid, PaidTo, LockedExact;
    SettlementCloses(s, t, digest, winners);
    OpenIsLocked(s, t);
    var r := Settlement(s, t, digest, winners);
    var from := ProjectAddress(s.tasks[t].projectId);
    var paid := Payout(s, t, winners);
    forall a: Address
      ensures Raw(r.Txs(), a) == Raw(s.Txs(), a) + PaidTo(paid, a) - if a == from then Paid(paid) else 0
    {
      RewardFlow(s.Txs(), from, t, paid, a);
    }
    ClosesBackedExactly(s, r, t);
  }

  /** The winner of a rank gets nothing: its floor share is zero and the remainder does
      not reach it. */
  predicate Unpaid(reward: u64, winners: seq<Winner>, rank: nat)
    requires 0 < TotalWeight(winners) < LIMIT && rank < |SortBy(winners, NegWeight)|
  {
    && FloorAmount(reward, TotalWeight(winners), SortBy(winners, NegWeight)[rank].weight) == 0
    && rank >= reward - Paid(FloorShares(reward, TotalWeight(winners), winners))
  }

  lemma {:induction false} UnpaidExactly(reward: u64, winners: seq<Winner>, a: Address)
    requires 0 < TotalWeight(winners) < LIMIT && DistinctIds(winners)
    ensures PaidTo(Distribute(reward, TotalWeight(winners), winners), a) == 0 <==>
      forall r :: 0 <= r < |SortBy(winners, NegWeight)| && SortBy(winners, NegWeight)[r].id == a ==>
        Unpaid(reward, winners, r)
  {
    hide Distribute, SortBy, PaidTo, TotalWeight;
    var paid := Distribute(reward, TotalWeight(winners), winners);
    var order := SortBy(winners, NegWeight);
    PaidToNobody(paid, a);
    DistributeIds(reward, TotalWeight(winners), winners);
    SortByProperties(winners, NegWeight);
    if winners != [] {
      var _ := RankOf(winners, 0);
    }
    forall i, r | 0 <= i < |winners| && 0 <= r < |order| && winners[i] == order[r]
      ensures paid[i].amount == 0 <==> Unpaid(reward, winners, r)
    {
      PaidAt(reward, winners, i, r);
    }
    forall i | 0 <= i < |winners| ensures exists r :: 0 <= r < |order| && order[r] == winners[i] {
      assert winners[i] in order;
    }
    forall r | 0 <= r < |order| ensures exists i :: 0 <= i < |winners| && winners[i] == order[r] {
      assert order[r] in winners;
    }
  }

  /** For weights that add up within 64 bits, in terms known before the payout: the
      reward exceeds the floor shares by no more than one token per winner, and
      every winner at a project's account comes away empty. */
  lemma {:induction false} SettleKeepsBackedExactly(s: NetState, t: TaskId, digest: string, winners: seq<Winner>)
    requires Limbo(s, t) && BackedAhead(s) && LockedExact(s) && s.tasks[t].status.Open()
    requires 0 < TotalWeight(winners) < LIMIT && DistinctIds(winners)
    ensures WrappedWeight(winners) == TotalWeight(winners)
    ensures Release(s, s.tasks[t].projectId, s.tasks[t].reward).state.tasks == s.tasks
    ensures var reward := s.tasks[t].reward;
      BackedAhead(Settlement(s, t, digest, winners)) <==>
        && reward <= Paid(FloorShares(reward, TotalWeight(winners), winners)) + |winners|
        && forall r :: 0 <= r < |SortBy(winners, NegWeight)| && NamesProject(s, SortBy(winners, NegWeight)[r].id) ==>
             Unpaid(reward, winners, r)
  {
    hide Placed, Consistent, Raw, Distribute, SortBy, Settlement, Paid, PaidTo, LockedExact, BackedAhead, TotalWeight,
         Unpaid;
    WeightExact(winners);
    SettleFlowExactly(s, t, digest, winners);
    var reward := s.tasks[t].reward;
    var paid := Payout(s, t, winners);
    var from := ProjectAddress(s.tasks[t].projectId);
    assert NamesProject(s, from);
    PaidOut(reward, winners);
    PaidToNobody(paid, from);
    forall a: Address
      ensures PaidTo(paid, a) == 0 <==>
        forall r :: 0 <= r < |SortBy(winners, NegWeight)| && SortBy(winners, NegWeight)[r].id == a ==>
          Unpaid(reward, winners, r)
    {
      UnpaidExactly(reward, winners, a);
    }
  }

  /** With ordinary winners only, and any weights: exactly when the reward is paid in
      full, which floor shares alone decide. */
  lemma {:induction false} SettleOrdinaryExactly(s: NetState, t: TaskId, digest: string, winners: seq<Winner>)
    requires Limbo(s, t) && BackedAhead(s) && LockedExact(s) && s.tasks[t].status.Open()
    requires WrappedWeight(winners) > 0 && DistinctIds(winners)
    requires forall i :: 0 <= i < |winners| ==> !NamesProject(s, winners[i].id)
    ensures Release(s, s.tasks[t].projectId, s.tasks[t].reward).state.tasks == s.tasks
    ensures BackedAhead(Settlement(s, t, digest, winners)) <==>
      PaysExactly(s.tasks[t].reward, WrappedWeight(winners), winners)
  {
    hide Placed, Consistent, Raw, Distribute, SortBy, Settlement, Paid, PaidTo, LockedExact, BackedAhead, FloorShares,
         Gains, Tokens;
    SettleFlowExactly(s, t, digest, winners);
    var paid := Payout(s, t, winners);
    var from := ProjectAddress(s.tasks[t].projectId);
    assert NamesProject(s, from);
    DistributeIds(s.tasks[t].reward, WrappedWeight(winners), winners);
    forall a: Address | NamesProject(s, a) ensures PaidTo(paid, a) == 0 {
      PaidToNobody(paid, a);
    }
    PaidInClosedForm(s.tasks[t].reward, WrappedWeight(winners), winners);
  }

  // ----------------------------------------------------------- one task's conclusion

  /** Can the reward return to the available quota? */
  predicate ReturnFits(s: NetState, t: TaskId)
    requires t in s.tasks && s.tasks[t].projectId in s.projects
  {
    s.projects[s.tasks[t].projectId].quotaAvailable + s.tasks[t].reward < LIMIT
  }

  /** Between a report and its conclusion the books are kept as between operations. */
  ghost predicate Kept(s: NetState) {
    LockedExact(s) && BackedAhead(s) && AccountsApart(s)
  }

  /** No participant is registered at the address of a project, present or future. */
  ghost predicate AccountsApart(s: NetState) {
    forall w :: w in s.participants ==> !NamesProject(s, w)
  }

  lemma ApartStays(s: NetState, r: NetState)
    requires r.participants.Keys == s.participants.Keys && r.projects.Keys == s.projects.Keys
    requires r.nextProject == s.nextProject
    ensures AccountsApart(r) <==> AccountsApart(s)
    ensures forall a :: NamesProject(r, a) <==> NamesProject(s, a)
  {}

  lemma RejectCloses(s: NetState, t: TaskId)
    requires Limbo(s, t)
    ensures var r := Reject(s, t).state; var p := s.tasks[t].projectId;
      && Closes(s, r, t) && r.participants.Keys == s.participants.Keys && r.ledger == s.ledger
      && r.projects[p] == s.projects[p].(quotaAvailable := Add(s.projects[p].quotaAvailable, s.tasks[t].reward),
                                         quotaLocked := SatSub(s.projects[p].quotaLocked, s.tasks[t].reward))
  {
    hide Placed, Consistent;
    RejectConsistent(s, t);
    RejectFrame(s, t);
  }

  lemma RejectKeepsExactly(s: NetState, t: TaskId)
    requires Limbo(s, t) && Kept(s) && s.tasks[t].status.Open()
    ensures LockedExact(Reject(s, t).state)
    ensures Kept(Reject(s, t).state) <==> ReturnFits(s, t)
  {
    hide Placed, Consistent, Raw, LockedExact, BackedAhead, Reject, AccountsApart;
    RejectCloses(s, t);
    OpenIsLocked(s, t);
    var r := Reject(s, t).state;
    ClosesLockedExactly(s, r, t);
    ClosesBackedExactly(s, r, t);
    ApartStays(s, r);
    assert r.Txs() == s.Txs();
  }

  lemma {:induction false} ExhaustCloses(s: NetState, t: TaskId, digest: string, ws: seq<ParticipantId>,
      blob: Option<Blob>)
    requires Limbo(s, t)
    ensures var r := Exhaust(s, t, digest, ws, blob).state; var p := s.tasks[t].projectId;
      && Closes(s, r, t) && r.participants.Keys == s.participants.Keys
      && r.projects[p] == s.projects[p].(quotaLocked := SatSub(s.projects[p].quotaLocked, s.tasks[t].reward))
      && forall a: Address :: Raw(r.Txs(), a) == Raw(s.Txs(), a) - if a == ProjectAddress(p) then s.tasks[t].reward
           else 0
  {
    hide Placed, Consistent, Raw;
    ExhaustConsistent(s, t, digest, ws, blob);
    ExhaustEntries(s, t, digest, ws, blob);
    ReleaseLimbo(s, t);
    var reward := s.tasks[t].reward;
    var from := ProjectAddress(s.tasks[t].projectId);
    var r := Exhaust(s, t, digest, ws, blob).state;
    forall a: Address ensures Raw(r.Txs(), a) == Raw(s.Txs(), a) - if a == from then reward else 0 {
      if reward > 0 {
        CommitOne(s, Burn(from, reward), a);
        assert r.Txs() == Commit(s, [Burn(from, reward)]).Txs();
      }
    }
  }

  lemma {:induction false} ExhaustKeeps(s: NetState, t: TaskId, digest: string, ws: seq<ParticipantId>,
      blob: Option<Blob>)
    requires Limbo(s, t) && Kept(s) && s.tasks[t].status.Open()
    ensures Kept(Exhaust(s, t, digest, ws, blob).state)
  {
    hide Placed, Consistent, Raw, LockedExact, BackedAhead, Exhaust, AccountsApart;
    ExhaustCloses(s, t, digest, ws, blob);
    OpenIsLocked(s, t);
    var r := Exhaust(s, t, digest, ws, blob).state;
    ClosesLockedExactly(s, r, t);
    ClosesBackedExactly(s, r, t);
    ApartStays(s, r);
  }

  /** A total weight that wraps to zero: the reward is released, and then released and
      returned once more by the rejection. */
  function Voided(s: NetState, t: TaskId): NetState
    requires t in s.tasks
  {
    Reject(Release(s, s.tasks[t].projectId, s.tasks[t].reward).state, t).state
  }

  lemma VoidedCloses(s: NetState, t: TaskId)
    requires Limbo(s, t)
    ensures var r := Voided(s, t); var p := s.tasks[t].projectId; var reward := s.tasks[t].reward;
      && Closes(s, r, t) && r.participants.Keys == s.participants.Keys && r.ledger == s.ledger
      && r.projects[p] == s.projects[p].(
           quotaAvailable := Add(s.projects[p].quotaAvailable, reward),
           quotaLocked := SatSub(SatSub(s.projects[p].quotaLocked, reward), reward))
  {
    hide Placed, Consistent, Reject;
    ReleaseLimbo(s, t);
    RejectCloses(Release(s, s.tasks[t].projectId, s.tasks[t].reward).state, t);
  }

  /** The second release is harmless only if there was nothing to release, or nothing
      else locked. */
  predicate VoidFits(s: NetState, t: TaskId)
    requires t in s.tasks && s.tasks[t].projectId in s.projects
  {
    s.tasks[t].reward == 0 || s.projects[s.tasks[t].projectId].quotaLocked == s.tasks[t].reward
  }

  lemma VoidedLockedExactly(s: NetState, t: TaskId)
    requires Limbo(s, t) && LockedExact(s) && s.tasks[t].status.Open()
    ensures LockedExact(Voided(s, t)) <==> VoidFits(s, t)
  {
    hide Placed, Consistent, LockedExact, Voided;
    VoidedCloses(s, t);
    OpenIsLocked(s, t);
    ClosesLockedExactly(s, Voided(s, t), t);
  }

  lemma VoidedKeepsExactly(s: NetState, t: TaskId)
    requires Limbo(s, t) && Kept(s) && s.tasks[t].status.Open()
    ensures Kept(Voided(s, t)) <==> VoidFits(s, t) && ReturnFits(s, t)
  {
    hide Placed, Consistent, Raw, LockedExact, BackedAhead, Voided, AccountsApart;
    VoidedCloses(s, t);
    VoidedLockedExactly(s, t);
    OpenIsLocked(s, t);
    var r := Voided(s, t);
    ClosesBackedExactly(s, r, t);
    ApartStays(s, r);
    assert r.Txs() == s.Txs();
  }

  /** What deciding for a digest must satisfy. */
  predicate DecisionFits(s: NetState, t: TaskId, digest: string)
    requires t in s.tasks && s.tasks[t].projectId in s.projects
  {
    var workers := Backers(s.tasks[t].reports, digest);
    var winners := Weighted(s.participants, workers);
    if workers == [] then ReturnFits(s, t)
    else if IsBudgetExhausted(digest) then true
    else if WrappedWeight(winners) == 0 then VoidFits(s, t) && ReturnFits(s, t)
    else PaysExactly(s.tasks[t].reward, WrappedWeight(winners), winners)
  }

  lemma {:induction false} WinnersOrdinary(s: NetState, t: TaskId, digest: string)
    requires Limbo(s, t) && AccountsApart(s)
    ensures var winners := Weighted(s.participants, Backers(s.tasks[t].reports, digest));
      DistinctIds(winners) && forall i :: 0 <= i < |winners| ==> !NamesProject(s, winners[i].id)
  {
    hide NamesProject, Placed, Shape;
    WinnersKnown(s, t, digest);
    TaskReportersDistinct(s, t);
    ListsDistinct(s.tasks[t].reports, digest);
  }

  lemma {:induction false} SettlementKeepsExactly(s: NetState, t: TaskId, digest: string, winners: seq<Winner>)
    requires Limbo(s, t) && Kept(s) && s.tasks[t].status.Open()
    requires WrappedWeight(winners) > 0 && DistinctIds(winners)
    requires forall i :: 0 <= i < |winners| ==> !NamesProject(s, winners[i].id)
    ensures Release(s, s.tasks[t].projectId, s.tasks[t].reward).state.tasks == s.tasks
    ensures LockedExact(Settlement(s, t, digest, winners))
    ensures Kept(Settlement(s, t, digest, winners)) <==>
      PaysExactly(s.tasks[t].reward, WrappedWeight(winners), winners)
  {
    hide Placed, Consistent, Raw, LockedExact, BackedAhead, AccountsApart, Settlement, PaysExactly;
    SettlementCloses(s, t, digest, winners);
    SettleOrdinaryExactly(s, t, digest, winners);
    OpenIsLocked(s, t);
    var r := Settlement(s, t, digest, winners);
    ClosesLockedExactly(s, r, t);
    ApartStays(s, r);
  }

  lemma FinalizeKeepsExactly(s: NetState, t: TaskId, digest: string)
    requires Limbo(s, t) && Kept(s) && s.tasks[t].status.Open()
    ensures Kept(Finalize(s, t, digest).state) <==> DecisionFits(s, t, digest)
  {
    hide Placed, Consistent, Sound, Shape, LockedExact, BackedAhead, AccountsApart, Reject, Exhaust, Settle,
         PaysExactly,
         VoidFits, ReturnFits, IsBudgetExhausted;
    var task := s.tasks[t];
    var workers := Backers(task.reports, digest);
    var winners := Weighted(s.participants, workers);
    ReleaseLimbo(s, t);
    if workers == [] {
      RejectKeepsExactly(s, t);
    } else if IsBudgetExhausted(digest) {
      ExhaustKeeps(s, t, digest, workers, FirstBlob(task.reports, digest));
    } else if WrappedWeight(winners) == 0 {
      VoidedKeepsExactly(s, t);
    } else {
      WinnersOrdinary(s, t, digest);
      SettlementKeepsExactly(s, t, digest, winners);
    }
  }

  /** What concluding a report must satisfy. */
  predicate ConclusionFits(s: NetState, t: TaskId)
    requires t in s.tasks && s.tasks[t].projectId in s.projects
  {
    match ConsensusDigest(s.participants, s.tasks[t].reports, s.tasks[t].weightRequired)
    case Some(digest) => DecisionFits(s, t, digest)
    case None => |s.tasks[t].reports| < s.tasks[t].maxReports || ReturnFits(s, t)
  }

  lemma SameMoneyKept(s: NetState, r: NetState)
    requires SameMoney(s, r)
    ensures LockedExact(s) ==> LockedExact(r)
    ensures Kept(s) ==> Kept(r)
  {
    hide LockedSum, Raw, Due;
    forall p | p in r.projects ensures LockedSum(r.tasks, p, r.nextTask) == LockedSum(s.tasks, p, s.nextTask) {
      LockedSame(s.tasks, r.tasks, p, s.nextTask);
    }
    ApartStays(s, r);
    assert r.Txs() == s.Txs();
  }

  lemma ConcludeKeepsExactly(s: NetState, t: TaskId)
    requires Limbo(s, t) && Kept(s) && s.tasks[t].status.Open()
    ensures Kept(Conclude(s, t).state) <==> ConclusionFits(s, t)
  {
    hide Placed, Consistent, Sound, Shape, Kept, Reject, Finalize, ReturnFits, DecisionFits, ConsensusDigest;
    var task := s.tasks[t];
    match ConsensusDigest(s.participants, task.reports, task.weightRequired)
    case Some(digest) => FinalizeKeepsExactly(s, t, digest);
    case None =>
      if |task.reports| >= task.maxReports {
        RejectKeepsExactly(s, t);
      } else {
        RequeueMoney(s, t);
        SameMoneyKept(s, Requeue(s, t).state);
      }
  }

  // -------------------------------------------------------------- every operation

  ghost predicate Books(s: NetState) {
    Consistent(s) && Kept(s)
  }

  /** Whether an operation keeps the books, as a caller can tell beforehand. */
  predicate Fit(s: NetState, op: LedgerOp) {
    match op
    case RegisterParticipant(id, _, _, _) => id in s.participants || !NamesProject(s, id)
    case CreateProject(_, _, _) => true
    case TransferTokens(from, to, amount, _) =>
      !Succeeds(s, op) || amount == 0 || from == to || (!NamesProject(s, from) && !NamesProject(s, to))
    case FundProject(_, p, amount) => !Succeeds(s, op) || FieldFits(s, p, amount)
    case DonateToProject(_, p, amount) => !Succeeds(s, op) || FieldFits(s, p, amount)
    case SubmitTask(_, p, reward, _) => !Succeeds(s, op) || ReserveFits(s, p, reward)
    case RequestTask(_, _) => true
    case SubmitResult(w, t, digest, cost, blob) =>
      !Succeeds(s, op) || Concludes(Reclaim(s), w, t, TaskReport(w, digest, cost, blob))
    case Tick(_) => true
  }

  predicate FieldFits(s: NetState, p: ProjectId, amount: u64) {
    p in s.projects && s.projects[p].quotaAvailable + amount < LIMIT
  }

  predicate ReserveFits(s: NetState, p: ProjectId, reward: u64) {
    p in s.projects && s.projects[p].quotaLocked + reward < LIMIT
  }

  predicate Concludes(s: NetState, w: ParticipantId, t: TaskId, report: TaskReport) {
    t in s.tasks && s.tasks[t].projectId in s.projects && ConclusionFits(Report(s, w, t, report), t)
  }

  lemma RegisterFits(s: NetState, id: ParticipantId, name: string, key: Option<Key>, balance: u64)
    requires Kept(s)
    ensures Kept(Register(s, id, name, key, balance)) <==> id in s.participants || !NamesProject(s, id)
  {
    hide Raw, LockedSum, BackedAhead;
    RegisterKeepsBackedExactly(s, id, name, key, balance);
    var r := Register(s, id, name, key, balance);
    if id !in s.participants {
      assert id in r.participants && (NamesProject(r, id) <==> NamesProject(s, id));
      assert forall w :: w in s.participants ==> (NamesProject(r, w) <==> NamesProject(s, w));
    }
  }

  lemma NewProjectFits(s: NetState, owner: ParticipantId, name: string, key: Option<Key>)
    requires Books(s)
    ensures Kept(NewProject(s, owner, name, key).state)
  {
    hide Raw, LockedSum;
    var r := NewProject(s, owner, name, key).state;
    if owner in s.participants {
      NewProjectKeepsBackedExactly(s, owner, name, key);
      forall t | t in s.tasks ensures s.tasks[t].projectId != s.nextProject {
        assert Sound(s, t);
      }
      LockedNone(s.tasks, s.nextProject, s.nextTask);
      assert forall a :: NamesProject(r, a) ==> NamesProject(s, a);
    }
  }

  lemma TransferFits(s: NetState, from: ParticipantId, to: ParticipantId, amount: u64, memo: string)
    requires Kept(s) && TransferBetween(s, from, to, amount, memo).out.Ok?
    ensures Kept(TransferBetween(s, from, to, amount, memo).state) <==>
      amount == 0 || from == to || (!NamesProject(s, from) && !NamesProject(s, to))
  {
    hide Raw, BackedAhead, LockedSum, Balance;
    TransferKeepsBackedExactly(s, from, to, amount, memo);
    ApartStays(s, TransferBetween(s, from, to, amount, memo).state);
  }

  lemma DonateFits(s: NetState, who: ParticipantId, p: ProjectId, amount: u64)
    requires Books(s) && Donate(s, who, p, amount).out.Ok?
    ensures Kept(Donate(s, who, p, amount).state) <==> FieldFits(s, p, amount)
  {
    hide Raw, BackedAhead, LockedSum, Balance, Sound, Placed;
    DonateKeepsBackedExactly(s, who, p, amount);
    ApartStays(s, Donate(s, who, p, amount).state);
  }

  /** The fields of the owning project after a reservation. */
  lemma NewTaskFits(s: NetState, owner: ParticipantId, p: ProjectId, reward: u64, payload: string)
    requires Books(s) && NewTask(s, owner, p, reward, payload).out.Ok?
    ensures LockedExact(NewTask(s, owner, p, reward, payload).state) <==> ReserveFits(s, p, reward)
    ensures Kept(NewTask(s, owner, p, reward, payload).state) <==> ReserveFits(s, p, reward)
  {
    hide Raw, Sound, Placed, LockedExact, Enqueue;
    var r := NewTask(s, owner, p, reward, payload).state;
    ReserveLockedExactly(s, owner, p, reward, payload);
    ApartStays(s, r);
    assert r.Txs() == s.Txs();
  }

  lemma ReserveLockedExactly(s: NetState, owner: ParticipantId, p: ProjectId, reward: u64, payload: string)
    requires Consistent(s) && LockedExact(s) && NewTask(s, owner, p, reward, payload).out.Ok?
    ensures LockedExact(NewTask(s, owner, p, reward, payload).state) <==> ReserveFits(s, p, reward)
  {
    hide Sound, Placed;
    var r := NewTask(s, owner, p, reward, payload).state;
    forall q | q in s.projects
      ensures LockedSum(r.tasks, q, r.nextTask) == LockedSum(s.tasks, q, s.nextTask) + if q == p then reward else 0
    {
      LockedSame(s.tasks, r.tasks, q, s.nextTask);
    }
    assert p in r.projects;
  }

  lemma HolderKnown(s: NetState, t: TaskId)
    requires Consistent(s) && t in s.leases
    ensures s.leases[t].workerId in s.participants
  {
    assert Placed(s, t);
  }

  lemma ReclaimLocked(s: NetState)
    requires LockedExact(s)
    ensures LockedExact(Reclaim(s))
  {
    hide LockedSum, Due;
    ReclaimAllMoney(s, ExpiredIds(s));
    SameMoneyKept(s, ReclaimAll(s, ExpiredIds(s)));
  }

  lemma ReclaimFits(s: NetState)
    requires Books(s)
    ensures Books(Reclaim(s))
  {
    hide Raw, BackedAhead, LockedExact, Reclaim, Consistent, SlashPerLease, NamesProject;
    ReclaimConsistent(s);
    ReclaimLocked(s);
    forall t | t in s.leases ensures !NamesProject(s, s.leases[t].workerId) {
      HolderKnown(s, t);
    }
    ReclaimKeepsBackedExactly(s);
    ReclaimParticipants(s);
    ApartStays(s, Reclaim(s));
  }

  lemma RequestMoney(s: NetState, w: ParticipantId)
    requires Consistent(s) && w in s.participants
    ensures SameMoney(Reclaim(s), Request(s, w).state)
  {
    hide Reclaim, Placed, Sound;
    ReclaimConsistent(s);
    BestTaskIsBest(Reclaim(s), w, Reclaim(s).pending);
  }

  lemma RequestFits(s: NetState, w: ParticipantId)
    requires Books(s)
    ensures Kept(Request(s, w).state)
  {
    hide Kept, Consistent, Reclaim;
    if w in s.participants {
      ReclaimFits(s);
      RequestMoney(s, w);
      SameMoneyKept(Reclaim(s), Request(s, w).state);
    }
  }

  lemma AdvanceFits(s: NetState, n: u64)
    requires Books(s)
    ensures Kept(Advance(s, n))
  {
    hide Consistent, Reclaim, LockedSum, Raw;
    var later := s.(now := SatAdd(s.now, n));
    ReclaimedConsistent(s, Tick(n));
    SameMoneyKept(s, later);
    ReclaimFits(later);
  }

  lemma ReportMoney(s: NetState, w: ParticipantId, t: TaskId, report: TaskReport)
    requires t in s.tasks
    ensures SameMoney(s, Report(s, w, t, report))
  {}

  lemma SubmitFits(s: NetState, w: ParticipantId, t: TaskId, digest: string, cost: u64, blob: Option<Blob>)
    requires Books(s)
    ensures var r := Submit(s, w, t, digest, cost, blob);
      Kept(r.state) <==> r.out.Err? || Concludes(Reclaim(s), w, t, TaskReport(w, digest, cost, blob))
  {
    hide Kept, Consistent, Reclaim, Conclude, ConclusionFits, Placed, Shape;
    var report := TaskReport(w, digest, cost, blob);
    if Submit(s, w, t, digest, cost, blob).out.Ok? {
      var s1, s2 := SubmitUnfolded(s, w, t, digest, cost, blob);
      ReclaimFits(s);
      HeldTaskOpen(s1, t);
      ReportMoney(s1, w, t, report);
      SameMoneyKept(s1, s2);
      ConcludeKeepsExactly(s2, t);
    } else {
      FailedSubmit(s, w, t, digest, cost, blob);
      ReclaimFits(s);
    }
  }

  lemma FailedSubmit(s: NetState, w: ParticipantId, t: TaskId, digest: string, cost: u64, blob: Option<Blob>)
    requires Consistent(s) && Submit(s, w, t, digest, cost, blob).out.Err?
    ensures var r := Submit(s, w, t, digest, cost, blob).state;
      r == s || r == Reclaim(s)
  {
    hide Consistent, Reclaim, Conclude;
    if w in s.participants {
      ReportFailure(s, w, t, digest, cost, blob);
    }
  }

  lemma FailureKeepsMoney(s: NetState, op: LedgerOp)
    requires !Succeeds(s, op) && !op.RequestTask? && !op.SubmitResult?
    ensures Apply(s, op) == s
  {
    hide Reclaim;
  }

  /** For each of the nine operations, the exact condition under which it keeps the
      books: failing ones always do, and so do requests and ticks. */
  lemma BooksKeptExactly(s: NetState, op: LedgerOp)
    requires Books(s) && s.nextProject >= 1
    ensures Books(Apply(s, op)) <==> Fit(s, op)
  {
    hide Kept, Consistent, Reclaim, Request, Submit, Advance, NewTask, Donate, TransferBetween, Register, NewProject,
         NamesProject, FieldFits, ReserveFits, Concludes;
    ApplyConsistent(s, op);
    match op {
      case RegisterParticipant(id, name, key, balance) => RegisterFits(s, id, name, Some(key), balance);
      case CreateProject(owner, name, key) => NewProjectFits(s, owner, name, key);
      case TransferTokens(from, to, amount, memo) =>
        if Succeeds(s, op) { TransferFits(s, from, to, amount, memo); } else { FailureKeepsMoney(s, op); }
      case FundProject(owner, p, amount) =>
        if Succeeds(s, op) { DonateFits(s, owner, p, amount); } else { FailureKeepsMoney(s, op); }
      case DonateToProject(supporter, p, amount) =>
        if Succeeds(s, op) { DonateFits(s, supporter, p, amount); } else { FailureKeepsMoney(s, op); }
      case SubmitTask(owner, p, reward, payload) =>
        if Succeeds(s, op) { NewTaskFits(s, owner, p, reward, payload); } else { FailureKeepsMoney(s, op); }
      case RequestTask(w, _) => RequestFits(s, w);
      case SubmitResult(w, t, digest, cost, blob) => SubmitFits(s, w, t, digest, cost, blob);
      case Tick(n) => AdvanceFits(s, n);
    }
  }

  // --------------------------------------------------------------------- whole runs

  lemma BooksAtFirst(config: Config)
    ensures Books(Fresh(config))
  {
    var l := Fresh(config).ledger;
    assert l[..0] == [] && Flatten(l) == [];
    assert forall a: Address :: Raw([], a) == 0;
    ReachableConsistent(config, []);
  }

  function StateAt(config: Config, ops: seq<LedgerOp>, k: nat): NetState
    requires k <= |ops|
  {
    ApplyAll(Fresh(config), ops[..k])
  }

  ghost predicate BooksThroughout(config: Config, ops: seq<LedgerOp>) {
    forall k :: 0 <= k <= |ops| ==> Books(StateAt(config, ops, k))
  }

  ghost predicate FitThroughout(config: Config, ops: seq<LedgerOp>) {
    forall k :: 0 <= k < |ops| ==> Fit(StateAt(config, ops, k), ops[k])
  }

  lemma SameStates(config: Config, init: seq<LedgerOp>, op: LedgerOp, k: nat)
    requires k <= |init|
    ensures StateAt(config, init + [op], k) == StateAt(config, init, k)
  {
    assert (init + [op])[..k] == init[..k];
  }

  lemma OneMoreOperation(config: Config, init: seq<LedgerOp>, op: LedgerOp)
    ensures BooksThroughout(config, init + [op]) <==>
      BooksThroughout(config, init) && Books(StateAt(config, init + [op], |init| + 1))
    ensures FitThroughout(config, init + [op]) <==>
      FitThroughout(config, init) && Fit(StateAt(config, init, |init|), op)
  {
    hide Books, Fit, StateAt;
    var ops := init + [op];
    forall k: nat | k <= |init| ensures StateAt(config, ops, k) == StateAt(config, init, k) {
      SameStates(config, init, op, k);
    }
    if BooksThroughout(config, ops) {
      assert forall k :: 0 <= k <= |init| ==> Books(StateAt(config, ops, k));
    }
    if FitThroughout(config, ops) {
      assert forall k :: 0 <= k < |init| ==> Fit(StateAt(config, ops, k), ops[k]);
      assert ops[|init|] == op;
    }
  }

  lemma NextState(config: Config, init: seq<LedgerOp>, op: LedgerOp)
    ensures StateAt(config, init + [op], |init| + 1) == Apply(StateAt(config, init, |init|), op)
  {
    hide Apply;
    assert (init + [op])[..|init|+1] == init + [op] && (init + [op])[..|init|] == init && init[..|init|] == init;
  }

  /** The books are kept throughout a run if and only if every one of its operations
      fits where it is applied. */
  lemma {:induction false} BooksThroughoutExactly(config: Config, ops: seq<LedgerOp>)
    ensures BooksThroughout(config, ops) <==> FitThroughout(config, ops)
  {
    hide Books, Fit, Apply;
    if ops == [] {
      assert StateAt(config, ops, 0) == Fresh(config);
      BooksAtFirst(config);
    } else {
      var init, op := ops[..|ops|-1], ops[|ops|-1];
      assert ops == init + [op];
      BooksThroughoutExactly(config, init);
      OneMoreOperation(config, init, op);
      NextState(config, init, op);
      assert init[..|init|] == init;
      ReachableConsistent(config, init);
      if BooksThroughout(config, init) {
        BooksKeptExactly(StateAt(config, init, |init|), op);
      }
    }
  }

  // -------------------------------------------------------- the locked part by itself

  /** Whether an operation keeps the locked part exact, wherever accounts are: only a
      field that wraps or a doubly released reward does not. */
  predicate LockFits(s: NetState, op: LedgerOp) {
    match op
    case SubmitTask(_, p, reward, _) => !Succeeds(s, op) || ReserveFits(s, p, reward)
    case SubmitResult(w, t, digest, cost, blob) =>
      !Succeeds(s, op) || LockConcludes(Reclaim(s), w, t, TaskReport(w, digest, cost, blob))
    case _ => true
  }

  predicate LockConcludes(s: NetState, w: ParticipantId, t: TaskId, report: TaskReport) {
    t in s.tasks && s.tasks[t].projectId in s.projects &&
    var s2 := Report(s, w, t, report);
    match ConsensusDigest(s2.participants, s2.tasks[t].reports, s2.tasks[t].weightRequired)
    case None => true
    case Some(d) => LockDecides(s2, t, d)
  }

  predicate LockDecides(s: NetState, t: TaskId, digest: string)
    requires t in s.tasks && s.tasks[t].projectId in s.projects
  {
    var workers := Backers(s.tasks[t].reports, digest);
    workers == [] || IsBudgetExhausted(digest) || WrappedWeight(Weighted(s.participants, workers)) != 0 ||
      VoidFits(s, t)
  }

  lemma CloseLocks(s: NetState, r: NetState, t: TaskId)
    requires Limbo(s, t) && LockedExact(s) && s.tasks[t].status.Open() && Closes(s, r, t)
    requires r.projects[s.tasks[t].projectId].quotaLocked
      == SatSub(s.projects[s.tasks[t].projectId].quotaLocked, s.tasks[t].reward)
    ensures LockedExact(r)
  {
    hide LockedExact;
    OpenIsLocked(s, t);
    ClosesLockedExactly(s, r, t);
  }

  lemma FinalizeLockedExactly(s: NetState, t: TaskId, digest: string)
    requires Limbo(s, t) && LockedExact(s) && s.tasks[t].status.Open()
    ensures LockedExact(Finalize(s, t, digest).state) <==> LockDecides(s, t, digest)
  {
    hide Placed, Consistent, Sound, Shape, LockedExact, Reject, Exhaust, Settle, Closes, VoidFits, IsBudgetExhausted,
         Raw;
    var task := s.tasks[t];
    var workers := Backers(task.reports, digest);
    var winners := Weighted(s.participants, workers);
    ReleaseLimbo(s, t);
    if workers == [] {
      RejectCloses(s, t);
      CloseLocks(s, Reject(s, t).state, t);
    } else if IsBudgetExhausted(digest) {
      ExhaustCloses(s, t, digest, workers, FirstBlob(task.reports, digest));
      CloseLocks(s, Exhaust(s, t, digest, workers, FirstBlob(task.reports, digest)).state, t);
    } else if WrappedWeight(winners) == 0 {
      VoidedLockedExactly(s, t);
    } else {
      SettlementCloses(s, t, digest, winners);
      CloseLocks(s, Settlement(s, t, digest, winners), t);
    }
  }

  lemma SubmitLockedExactly(s: NetState, w: ParticipantId, t: TaskId, digest: string, cost: u64, blob: Option<Blob>)
    requires Consistent(s) && LockedExact(s)
    ensures var r := Submit(s, w, t, digest, cost, blob);
      LockedExact(r.state) <==> r.out.Err? || LockConcludes(Reclaim(s), w, t, TaskReport(w, digest, cost, blob))
  {
    hide LockedExact, Consistent, Reclaim, Finalize, Reject, LockDecides, Placed, Shape, ConsensusDigest;
    var report := TaskReport(w, digest, cost, blob);
    ReclaimLocked(s);
    if Submit(s, w, t, digest, cost, blob).out.Ok? {
      var s1, s2 := SubmitUnfolded(s, w, t, digest, cost, blob);
      HeldTaskOpen(s1, t);
      ReportMoney(s1, w, t, report);
      SameMoneyKept(s1, s2);
      var task := s2.tasks[t];
      match ConsensusDigest(s2.participants, task.reports, task.weightRequired) {
        case Some(d) => FinalizeLockedExactly(s2, t, d);
        case None =>
          if |task.reports| >= task.maxReports {
            RejectCloses(s2, t);
            CloseLocks(s2, Reject(s2, t).state, t);
          } else {
            RequeueMoney(s2, t);
            SameMoneyKept(s2, Requeue(s2, t).state);
          }
      }
    } else {
      FailedSubmit(s, w, t, digest, cost, blob);
    }
  }

  lemma LedgerOpsKeepLocked(s: NetState, op: LedgerOp)
    requires Consistent(s) && LockedExact(s)
    requires !op.RequestTask? && !op.SubmitResult? && !op.Tick? && !op.SubmitTask?
    ensures LockedExact(Apply(s, op))
  {
    hide Placed, Raw, Balance;
    var r := Apply(s, op);
    forall t | t in s.tasks ensures s.tasks[t].projectId in s.projects && s.tasks[t].projectId < s.nextProject {
      assert Sound(s, t);
    }
    LockedNone(s.tasks, s.nextProject, s.nextTask);
  }

  lemma LockedKeptExactly(s: NetState, op: LedgerOp)
    requires Consistent(s) && LockedExact(s)
    ensures LockedExact(Apply(s, op)) <==> LockFits(s, op)
  {
    hide Consistent, LockedExact, Reclaim, Request, Submit, NewTask, ReserveFits, LockConcludes;
    match op {
      case RequestTask(w, _) =>
        ReclaimLocked(s);
        if w in s.participants {
          RequestMoney(s, w);
          SameMoneyKept(Reclaim(s), Request(s, w).state);
        } else {
          StrangerRequests(s, w);
        }
      case SubmitResult(w, t, digest, cost, blob) => SubmitLockedExactly(s, w, t, digest, cost, blob);
      case Tick(n) =>
        var later := s.(now := SatAdd(s.now, n));
        SameMoneyKept(s, later);
        ReclaimLocked(later);
      case SubmitTask(owner, p, reward, payload) =>
        if Succeeds(s, op) {
          ReserveLockedExactly(s, owner, p, reward, payload);
        } else {
          FailureKeepsMoney(s, op);
        }
      case _ => LedgerOpsKeepLocked(s, op);
    }
  }

  lemma StrangerRequests(s: NetState, w: ParticipantId)
    requires w !in s.participants
    ensures Request(s, w).state == s
  {}
}
