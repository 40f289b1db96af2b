/** A project's quota fields are a cache of the ledger: they add up to the
    balance of the project's account, and the locked part is exactly what its
    open tasks are due. The account separation the operations' documentation
    intends, and room in 64 bits, are stated as hypotheses on the log. */
module QuotaInvariants {
  import opened Words
  import opened Sequences
  import opened Ledger
  import opened Model
  import opened Reward
  import opened NetworkSpec
  import opened TaskInvariants
  import opened TaskOutcomes

  /** Sum of the rewards of a project's open tasks with ids below `n`. */
  function LockedSum(tasks: map<TaskId, Task>, p: ProjectId, n: nat): nat {
    if n == 0 then 0
    else LockedSum(tasks, p, n - 1) + Due(tasks, p, n - 1)
  }

  function Due(tasks: map<TaskId, Task>, p: ProjectId, t: TaskId): nat {
    if t in tasks && tasks[t].projectId == p && tasks[t].status.Open() then tasks[t].reward else 0
  }

  /** Is the address that of one of the first `n` projects? */
  predicate ProjectAccount(a: Address, n: nat) {
    PROJECT_ID_OFFSET < a <= PROJECT_ID_OFFSET + n
  }

  /** Every project's account holds exactly what its quota fields say. */
  ghost predicate Backed(s: NetState) {
    forall p :: p in s.projects ==>
      Raw(s.Txs(), ProjectAddress(p)) == s.projects[p].quotaAvailable + s.projects[p].quotaLocked
  }

  /** Every project's account holds at least what its quota fields say. */
  ghost predicate Funded(s: NetState) {
    forall p :: p in s.projects ==>
      Raw(s.Txs(), ProjectAddress(p)) >= s.projects[p].quotaAvailable + s.projects[p].quotaLocked
  }

  ghost predicate LockedExact(s: NetState) {
    forall p :: p in s.projects ==> s.projects[p].quotaLocked == LockedSum(s.tasks, p, s.nextTask)
  }

  /** The money side of a state, for a log that creates at most `n` projects;
      `exact` if every reward so far was paid out in full. */
  ghost predicate Quotas(s: NetState, n: nat, exact: bool) {
    && Funded(s) && (exact ==> Backed(s)) && LockedExact(s)
    && 1 <= s.nextProject <= n + 1
    && (forall p :: s.nextProject <= p <= n ==> Raw(s.Txs(), ProjectAddress(p)) == 0)
    && (forall w :: w in s.participants ==> !ProjectAccount(w, n))
    && Covered(s.Txs()) && Minted(s.Txs()) < LIMIT
  }

  // ------------------------------------------------------------- locked sums

  lemma {:induction false} LockedSame(a: map<TaskId, Task>, b: map<TaskId, Task>, p: ProjectId, n: nat)
    requires forall t: nat :: t < n ==> Due(a, p, t) == Due(b, p, t)
    ensures LockedSum(a, p, n) == LockedSum(b, p, n)
  {
    if n > 0 {
      LockedSame(a, b, p, n - 1);
    }
  }

  lemma {:induction false} LockedChange(a: map<TaskId, Task>, b: map<TaskId, Task>, p: ProjectId, n: nat, t: TaskId)
    requires t < n && forall u: nat :: u != t ==> Due(a, p, u) == Due(b, p, u)
    ensures LockedSum(b, p, n) - LockedSum(a, p, n) == Due(b, p, t) - Due(a, p, t)
  {
    if t == n - 1 {
      LockedSame(a, b, p, n - 1);
    } else {
      LockedChange(a, b, p, n - 1, t);
    }
  }

  lemma {:induction false} LockedAtLeast(a: map<TaskId, Task>, p: ProjectId, n: nat, t: TaskId)
    requires t < n
    ensures Due(a, p, t) <= LockedSum(a, p, n)
  {
    if t < n - 1 {
      LockedAtLeast(a, p, n - 1, t);
    }
  }

  lemma {:induction false} LockedNone(a: map<TaskId, Task>, p: ProjectId, n: nat)
    requires forall t :: t in a ==> a[t].projectId != p
    ensures LockedSum(a, p, n) == 0
  {
    if n > 0 {
      LockedNone(a, p, n - 1);
    }
  }

  // ------------------------------------------------------------------ ledger

  lemma CommitTxs(s: NetState, txs: seq<Transaction>)
    ensures Commit(s, txs).Txs() == s.Txs() + txs
  {
    FlattenAppend(s.ledger, Entry(s.now, txs));
  }

  lemma {:induction false} CommitOne(s: NetState, tx: Transaction, a: Address)
    ensures Raw(Commit(s, [tx]).Txs(), a) == Raw(s.Txs(), a) + Delta(tx, a)
    ensures Minted(Commit(s, [tx]).Txs()) == Minted(s.Txs()) + MintedBy(tx)
  {
    CommitTxs(s, [tx]);
    RawConcat(s.Txs(), [tx], a);
    RawOne(tx, a);
    MintedConcat(s.Txs(), [tx]);
    MintedOne(tx);
  }

  lemma CommitCovered(s: NetState, tx: Transaction)
    requires Covered(s.Txs())
    requires tx.Transfer? ==> tx.amount <= s.BalanceOf(tx.from) || tx.amount <= Clamp(Raw(s.Txs(), tx.from))
    ensures Covered(Commit(s, [tx]).Txs())
  {
    CommitTxs(s, [tx]);
    if tx.Transfer? {
      BalanceAtMostClamp(s.Txs(), tx.from);
    }
    CoveredAppend(s.Txs(), tx);
  }

  /** A transaction between accounts leaves every project's balance alone. */
  lemma CommitElsewhere(s: NetState, tx: Transaction, n: nat)
    requires forall p :: 1 <= p <= n ==> !Touches(tx, ProjectAddress(p))
    ensures forall p :: 1 <= p <= n ==> Raw(Commit(s, [tx]).Txs(), ProjectAddress(p)) == Raw(s.Txs(), ProjectAddress(p))
  {
    forall p | 1 <= p <= n ensures Raw(Commit(s, [tx]).Txs(), ProjectAddress(p)) == Raw(s.Txs(), ProjectAddress(p)) {
      CommitOne(s, tx, ProjectAddress(p));
    }
  }

  /** Quota fields fit in 64 bits together. */
  lemma QuotaFits(s: NetState, n: nat, p: ProjectId)
    requires Quotas(s, n, false) && p in s.projects
    ensures s.projects[p].quotaAvailable + s.projects[p].quotaLocked <= Minted(s.Txs()) < LIMIT
    ensures s.projects[p].PriorityScore() == s.projects[p].quotaAvailable + s.projects[p].quotaLocked
  {
    SpendableBounded(s.Txs(), [ProjectAddress(p)]);
    assert [ProjectAddress(p)][..0] == [];
  }

  // ------------------------------------------------------ accounts, projects

  lemma RegisterQuotas(s: NetState, n: nat, exact: bool, id: ParticipantId, name: string, key: Option<Key>,
      balance: u64)
    requires Consistent(s) && Quotas(s, n, exact)
    requires !ProjectAccount(id, n) && Minted(s.Txs()) + balance < LIMIT
    ensures Quotas(Register(s, id, name, key, balance), n, exact)
    ensures Minted(Register(s, id, name, key, balance).Txs()) <= Minted(s.Txs()) + balance
  {
    hide Sound, Placed, Raw, Covered, Minted, Flatten, LockedSum;
    if id !in s.participants && balance > 0 {
      CommitElsewhere(s, Mint(id, balance), n);
      CommitOne(s, Mint(id, balance), 0);
      CommitCovered(s, Mint(id, balance));
    }
  }

  lemma NewProjectQuotas(s: NetState, n: nat, exact: bool, owner: ParticipantId, name: string, key: Option<Key>)
    requires Consistent(s) && Quotas(s, n, exact) && s.nextProject <= n
    ensures Quotas(NewProject(s, owner, name, key).state, n, exact)
  {
    forall t | t in s.tasks ensures s.tasks[t].projectId != s.nextProject {
      assert Sound(s, t);
    }
    LockedNone(s.tasks, s.nextProject, s.nextTask);
  }

  lemma TransferQuotas(s: NetState, n: nat, exact: bool, from: ParticipantId, to: ParticipantId, amount: u64,
      memo: string)
    requires Consistent(s) && Quotas(s, n, exact)
    requires !ProjectAccount(from, n) && !ProjectAccount(to, n)
    ensures Quotas(TransferBetween(s, from, to, amount, memo).state, n, exact)
    ensures Minted(TransferBetween(s, from, to, amount, memo).state.Txs()) == Minted(s.Txs())
  {
    hide Sound, Placed, Raw, Covered, Minted, Flatten, LockedSum;
    var tx := Transfer(from, to, amount, memo);
    if TransferBetween(s, from, to, amount, memo).out.Ok? {
      CommitElsewhere(s, tx, n);
      CommitOne(s, tx, 0);
      CommitCovered(s, tx);
    }
  }

  lemma DonateQuotas(s: NetState, n: nat, exact: bool, who: ParticipantId, p: ProjectId, amount: u64)
    requires Consistent(s) && Quotas(s, n, exact)
    ensures Quotas(Donate(s, who, p, amount).state, n, exact)
    ensures Minted(Donate(s, who, p, amount).state.Txs()) == Minted(s.Txs())
  {
    hide Sound, Placed, Raw, Covered, Minted, Flatten, LockedSum;
    if Donate(s, who, p, amount).out.Ok? {
      var tx := Transfer(who, ProjectAddress(p), amount, FundMemo(p));
      var s1 := Commit(s, [tx]);
      assert who != ProjectAddress(p);
      CommitCovered(s, tx);
      CommitOne(s, tx, 0);
      forall q | 1 <= q <= n
        ensures Raw(s1.Txs(), ProjectAddress(q)) == Raw(s.Txs(), ProjectAddress(q)) + if q == p then amount else 0
      {
        CommitOne(s, tx, ProjectAddress(q));
      }
      BalanceAtMostClamp(s.Txs(), who);
      TwoAccountsBounded(s.Txs(), who, ProjectAddress(p));
    }
  }

  // -------------------------------------------------------------------- tasks

  lemma NewTaskQuotas(s: NetState, n: nat, exact: bool, owner: ParticipantId, p: ProjectId, reward: u64,
      payload: string)
    requires Consistent(s) && Quotas(s, n, exact)
    ensures Quotas(NewTask(s, owner, p, reward, payload).state, n, exact)
  {
    hide Sound, Placed, Raw, Covered, Minted;
    var r := NewTask(s, owner, p, reward, payload).state;
    if NewTask(s, owner, p, reward, payload).out.Ok? {
      QuotaFits(s, n, p);
      forall q | q in r.projects ensures r.projects[q].quotaLocked == LockedSum(r.tasks, q, r.nextTask) {
        LockedSame(s.tasks, r.tasks, q, s.nextTask);
      }
    }
  }

  /** Two states with the same money: ledger and projects, and open tasks due
      the same rewards. */
  ghost predicate SameMoney(s: NetState, r: NetState) {
    && r.ledger == s.ledger && r.projects == s.projects
    && r.nextProject == s.nextProject && r.nextTask == s.nextTask
    && r.participants.Keys == s.participants.Keys
    && forall p: nat, t: nat :: Due(r.tasks, p, t) == Due(s.tasks, p, t)
  }

  lemma SameMoneyQuotas(s: NetState, r: NetState, n: nat, exact: bool)
    requires SameMoney(s, r) && Quotas(s, n, exact)
    ensures Quotas(r, n, exact)
  {
    forall p | p in r.projects ensures r.projects[p].quotaLocked == LockedSum(r.tasks, p, r.nextTask) {
      LockedSame(s.tasks, r.tasks, p, s.nextTask);
    }
  }

  lemma {:induction false} ReclaimAllMoney(s: NetState, ids: seq<TaskId>)
    ensures SameMoney(s, ReclaimAll(s, ids))
  {
    ReclaimAllTasks(s, ids);
    ReclaimAllParticipants(s, ids);
  }

  /** Slashes are burns from lease holders. */
  lemma {:induction false} SlashesAreBurns(s: NetState, ids: seq<TaskId>)
    requires forall i :: 0 <= i < |ids| ==> ids[i] in s.leases
    ensures forall i :: 0 <= i < |Slashes(s, ids)| ==>
      Slashes(s, ids)[i].Burn? && exists t :: t in s.leases && s.leases[t].workerId == Slashes(s, ids)[i].from
  {
    if ids != [] {
      var init := ids[..|ids|-1];
      SlashesAreBurns(s, init);
      ReclaimAllLeases(s, init);
      var t := ids[|ids|-1];
      var rest: seq<Transaction> := Slashes(s, init);
      var more: seq<Transaction> := SlashOf(ReclaimAll(s, init), t);
      forall i | 0 <= i < |rest + more|
        ensures (rest + more)[i].Burn? && exists u :: u in s.leases && s.leases[u].workerId == (rest + more)[i].from
      {
        if i < |rest| {
          assert (rest + more)[i] == rest[i];
        } else {
          assert t in s.leases && s.leases[t].workerId == more[0].from;
        }
      }
    }
  }

  lemma {:induction false} ReclaimAllLeases(s: NetState, ids: seq<TaskId>)
    ensures forall t :: t in ReclaimAll(s, ids).leases <==> t in s.leases && t !in ids
    ensures forall t :: t in ReclaimAll(s, ids).leases ==> ReclaimAll(s, ids).leases[t] == s.leases[t]
  {
    if ids != [] {
      var init := ids[..|ids|-1];
      assert ids == init + [ids[|ids|-1]];
      ReclaimAllLeases(s, init);
    }
  }

  ghost predicate BurnsOnly(burns: seq<Transaction>, n: nat) {
    forall i :: 0 <= i < |burns| ==> burns[i].Burn? && !ProjectAccount(burns[i].from, n)
  }

  /** Burns elsewhere change neither a project's balance nor what is covered. */
  lemma {:induction false} BurnsElsewhere(txs: seq<Transaction>, burns: seq<Transaction>, n: nat)
    requires Covered(txs)
    requires BurnsOnly(burns, n)
    ensures Covered(txs + burns) && Minted(txs + burns) == Minted(txs)
    ensures forall p :: 1 <= p <= n ==> Raw(txs + burns, ProjectAddress(p)) == Raw(txs, ProjectAddress(p))
  {
    if burns == [] {
      assert txs + burns == txs;
    } else {
      var init := burns[..|burns|-1];
      BurnsElsewhere(txs, init, n);
      assert (txs + burns)[..|txs + burns|-1] == txs + init;
    }
  }

  lemma {:induction false} SlashesElsewhere(s: NetState, n: nat)
    requires Consistent(s)
    requires forall w :: w in s.participants ==> !ProjectAccount(w, n)
    ensures BurnsOnly(Slashes(s, ExpiredIds(s)), n)
  {
    var ids := ExpiredIds(s);
    ExpiredIdsProperties(s);
    SlashesAreBurns(s, ids);
    var burns := Slashes(s, ids);
    forall i | 0 <= i < |burns| ensures burns[i].Burn? && !ProjectAccount(burns[i].from, n) {
      var t :| t in s.leases && s.leases[t].workerId == burns[i].from;
      assert Placed(s, t);
    }
  }

  lemma ReclaimQuotas(s: NetState, n: nat, exact: bool)
    requires Consistent(s) && Quotas(s, n, exact)
    ensures Quotas(Reclaim(s), n, exact) && Minted(Reclaim(s).Txs()) == Minted(s.Txs())
  {
    hide Sound, Placed, OneReportEach, Reported, LockedSum, Due, Raw, Covered, Minted;
    var ids := ExpiredIds(s);
    var mid := ReclaimAll(s, ids);
    ReclaimAllMoney(s, ids);
    SameMoneyQuotas(s, mid, n, exact);
    SlashesElsewhere(s, n);
    var burns := Slashes(s, ids);
    MidShape(s);
    BurnsKeepQuotas(mid, n, exact, burns);
  }

  lemma {:induction false} MidShape(s: NetState)
    requires Consistent(s)
    ensures Shape(ReclaimAll(s, ExpiredIds(s)))
  {
    ExpiredIdsProperties(s);
    ReclaimAllConsistent(s, ExpiredIds(s));
  }

  lemma BurnsKeepQuotas(s: NetState, n: nat, exact: bool, burns: seq<Transaction>)
    requires Shape(s) && Quotas(s, n, exact)
    requires BurnsOnly(burns, n)
    ensures Quotas(CommitSlashes(s, burns), n, exact) && Minted(CommitSlashes(s, burns).Txs()) == Minted(s.Txs())
  {
    BurnsElsewhere(s.Txs(), burns, n);
    CommitTxs(s, burns);
  }

  lemma RequestQuotas(s: NetState, n: nat, exact: bool, w: ParticipantId)
    requires Consistent(s) && Quotas(s, n, exact)
    ensures Quotas(Request(s, w).state, n, exact)
    ensures Minted(Request(s, w).state.Txs()) == Minted(s.Txs())
  {
    hide Placed, Sound, Raw, Covered, Minted, Flatten, LockedSum, Reclaim;
    if w in s.participants {
      ReclaimQuotas(s, n, exact);
      var s1 := Reclaim(s);
      BestTaskIsBest(s1, w, s1.pending);
      SameMoneyQuotas(s1, Request(s, w).state, n, exact);
    }
  }

  // ------------------------------------------------------------------ payouts

  /** Paying shares out of one account: if it can bear their sum, every single
      payment is covered, and it is debited exactly that sum. */
  lemma {:induction false} RewardsCovered(txs: seq<Transaction>, from: Address, t: TaskId, shares: seq<Share>)
    requires Covered(txs) && Paid(shares) <= Raw(txs, from)
    requires forall i :: 0 <= i < |shares| ==> shares[i].id != from
    ensures Covered(txs + RewardTxs(from, t, shares))
    ensures Minted(txs + RewardTxs(from, t, shares)) == Minted(txs)
    ensures Raw(txs + RewardTxs(from, t, shares), from) == Raw(txs, from) - Paid(shares)
  {
    if shares == [] {
      assert txs + [] == txs;
    } else {
      var init, last := shares[..|shares|-1], shares[|shares|-1];
      RewardsCovered(txs, from, t, init);
      if last.amount > 0 {
        var tx := Transfer(from, last.id, last.amount, RewardMemo(t));
        var before := txs + RewardTxs(from, t, init);
        CoveredAppend(before, tx);
        assert txs + RewardTxs(from, t, shares) == before + [tx];
        assert (before + [tx])[..|before|] == before;
      }
    }
  }

  lemma {:induction false} RewardsElsewhere(txs: seq<Transaction>, from: Address, t: TaskId, shares: seq<Share>,
      a: Address)
    requires a != from && forall i :: 0 <= i < |shares| ==> shares[i].id != a
    ensures Raw(txs + RewardTxs(from, t, shares), a) == Raw(txs, a)
  {
    if shares == [] {
      assert txs + [] == txs;
    } else {
      var init, last := shares[..|shares|-1], shares[|shares|-1];
      RewardsElsewhere(txs, from, t, init, a);
      if last.amount > 0 {
        var tx := Transfer(from, last.id, last.amount, RewardMemo(t));
        var before := txs + RewardTxs(from, t, init);
        assert txs + RewardTxs(from, t, shares) == before + [tx];
        assert (before + [tx])[..|before|] == before;
      }
    }
  }

  lemma DistributeIds(reward: u64, total: u64, winners: seq<Winner>)
    requires total > 0
    ensures forall i :: 0 <= i < |winners| ==> Distribute(reward, total, winners)[i].id == winners[i].id
  {
    var shares := FloorShares(reward, total, winners);
    SpendKeepsIds(shares, SortBy(winners, NegWeight), 0, SatSub(reward, WrappedSum(shares)));
  }

  /** The reward of an open task is part of what its project has locked. */
  lemma RewardIsLocked(s: NetState, n: nat, t: TaskId)
    requires Limbo(s, t) && Quotas(s, n, false) && s.tasks[t].status.Open()
    ensures s.tasks[t].reward <= s.projects[s.tasks[t].projectId].quotaLocked
    ensures s.tasks[t].reward <= Raw(s.Txs(), ProjectAddress(s.tasks[t].projectId))
    ensures s.tasks[t].reward <= Minted(s.Txs())
  {
    var p := s.tasks[t].projectId;
    LockedAtLeast(s.tasks, p, s.nextTask, t);
    QuotaFits(s, n, p);
  }

  /** Closing task `t` while its project's quota and account change by
      `available` and `paid`: what must add up for the books to stay right. */
  lemma CloseQuotas(s: NetState, r: NetState, n: nat, exact: bool, t: TaskId, available: nat, paid: nat)
    requires Limbo(s, t) && Quotas(s, n, exact) && s.tasks[t].status.Open()
    requires r.tasks.Keys == s.tasks.Keys && !r.tasks[t].status.Open()
    requires forall u :: u in s.tasks && u != t ==> r.tasks[u] == s.tasks[u]
    requires r.nextProject == s.nextProject && r.nextTask == s.nextTask && r.participants.Keys == s.participants.Keys
    requires var p := s.tasks[t].projectId; var project := s.projects[p];
      && project.quotaLocked >= s.tasks[t].reward && project.quotaAvailable + available < LIMIT
      && r.projects == s.projects[p := project.(quotaAvailable := project.quotaAvailable + available,
                                                quotaLocked := project.quotaLocked - s.tasks[t].reward)]
      && Raw(r.Txs(), ProjectAddress(p)) == Raw(s.Txs(), ProjectAddress(p)) - paid
    requires available + paid <= s.tasks[t].reward
    requires exact ==> available + paid == s.tasks[t].reward
    requires forall q :: 1 <= q <= n && q != s.tasks[t].projectId ==>
      Raw(r.Txs(), ProjectAddress(q)) == Raw(s.Txs(), ProjectAddress(q))
    requires Covered(r.Txs()) && Minted(r.Txs()) == Minted(s.Txs())
    ensures Quotas(r, n, exact)
  {
    hide Placed, OneReportEach, Reported, Raw, Covered, Minted, Flatten, LockedSum;
    forall q | q in r.projects ensures r.projects[q].quotaLocked == LockedSum(r.tasks, q, r.nextTask) {
      LockedChange(s.tasks, r.tasks, q, s.nextTask, t);
    }
  }

  lemma RejectQuotas(s: NetState, n: nat, exact: bool, t: TaskId)
    requires Limbo(s, t) && Quotas(s, n, exact) && s.tasks[t].status.Open()
    ensures Quotas(Reject(s, t).state, n, exact) && Reject(s, t).state.ledger == s.ledger
  {
    hide Sound, Placed, Shape, Consistent, OneReportEach, Reported, LockedSum, Due, Raw, Covered, Minted, Flatten;
    RejectFrame(s, t);
    RejectConsistent(s, t);
    RewardIsLocked(s, n, t);
    QuotaFits(s, n, s.tasks[t].projectId);
    CloseQuotas(s, Reject(s, t).state, n, exact, t, s.tasks[t].reward, 0);
  }

  lemma ExhaustQuotas(s: NetState, n: nat, exact: bool, t: TaskId, digest: string, ws: seq<ParticipantId>,
      blob: Option<Blob>)
    requires Limbo(s, t) && Quotas(s, n, exact) && s.tasks[t].status.Open()
    ensures Quotas(Exhaust(s, t, digest, ws, blob).state, n, exact)
    ensures Minted(Exhaust(s, t, digest, ws, blob).state.Txs()) == Minted(s.Txs())
  {
    hide Sound, Placed, Shape, Consistent, OneReportEach, Reported, LockedSum, Due, Raw, Covered, Minted, Flatten;
    var r := Exhaust(s, t, digest, ws, blob).state;
    ExhaustLedger(s, n, t, digest, ws, blob);
    ExhaustConsistent(s, t, digest, ws, blob);
    ExhaustFrame(s, t, digest, ws, blob);
    RewardIsLocked(s, n, t);
    ReleaseLimbo(s, t);
    assert r.projects == Release(s, s.tasks[t].projectId, s.tasks[t].reward).state.projects;
    CloseQuotas(s, r, n, exact, t, 0, s.tasks[t].reward);
  }

  lemma ExhaustLedger(s: NetState, n: nat, t: TaskId, digest: string, ws: seq<ParticipantId>, blob: Option<Blob>)
    requires Limbo(s, t) && Covered(s.Txs())
    ensures var r := Exhaust(s, t, digest, ws, blob).state; var p := s.tasks[t].projectId;
      && Covered(r.Txs()) && Minted(r.Txs()) == Minted(s.Txs())
      && forall q :: 1 <= q <= n || q == p ==>
           Raw(r.Txs(), ProjectAddress(q)) == Raw(s.Txs(), ProjectAddress(q)) - if q == p then s.tasks[t].reward else 0
  {
    hide Sound, Placed, Shape, Consistent, Covered, Raw, Minted, Flatten, Balance, Exhaust;
    var p, reward := s.tasks[t].projectId, s.tasks[t].reward;
    var r := Exhaust(s, t, digest, ws, blob).state;
    var tx := Burn(ProjectAddress(p), reward);
    ExhaustEntries(s, t, digest, ws, blob);
    if reward > 0 {
      CommitCovered(s, tx);
      CommitOne(s, tx, 0);
      forall q | 1 <= q <= n || q == p
        ensures Raw(r.Txs(), ProjectAddress(q)) == Raw(s.Txs(), ProjectAddress(q)) - if q == p then reward else 0
      {
        CommitOne(s, tx, ProjectAddress(q));
      }
    } else {
      assert r.ledger == s.ledger;
    }
  }

  lemma ExhaustEntries(s: NetState, t: TaskId, digest: string, ws: seq<ParticipantId>, blob: Option<Blob>)
    requires Limbo(s, t)
    ensures t in s.tasks
    ensures Exhaust(s, t, digest, ws, blob).state.ledger ==
      if s.tasks[t].reward == 0 then s.ledger
      else Commit(s, [Burn(ProjectAddress(s.tasks[t].projectId), s.tasks[t].reward)]).ledger
  {
    ReleaseLimbo(s, t);
  }

  /** No reputation exceeds `bound`, and the weights of one task's reporters add
      up within 64 bits. */
  ghost predicate Mild(s: NetState, bound: nat) {
    && bound >= 1
    && (forall w :: w in s.participants ==> s.participants[w].reputation <= bound)
    && MaxReports(s.config) * bound < LIMIT
  }

  /** The products the payout forms stay within 64 bits too. */
  ghost predicate Roomy(s: NetState, bound: nat) {
    Minted(s.Txs()) * bound < LIMIT
  }

  lemma {:induction false} WeightsBounded(ps: map<ParticipantId, Participant>, ws: seq<ParticipantId>, bound: nat)
    requires bound >= 1 && forall w :: w in ps ==> ps[w].reputation <= bound
    ensures TotalWeight(Weighted(ps, ws)) <= |ws| * bound
    ensures |ws| <= TotalWeight(Weighted(ps, ws))
  {
    if ws != [] {
      var init := ws[..|ws|-1];
      WeightsBounded(ps, init, bound);
      assert Weighted(ps, ws)[..|ws|-1] == Weighted(ps, init);
      NextMultiple(|init|, bound);
    }
  }

  lemma ProductAtMost(a: nat, b: nat, c: nat, d: nat)
    requires a <= c && b <= d
    ensures a * b <= c * d
  {
    assert a * b <= a * d by { FactorAtMost(b, d, a); }
    FactorAtMost(a, c, d);
  }

  lemma FactorAtMost(x: nat, y: nat, k: nat)
    requires x <= y
    ensures x * k <= y * k && k * x <= k * y
  {}

  lemma {:induction false} BackersBounded(reports: seq<TaskReport>, digest: string)
    ensures |Backers(reports, digest)| <= |reports|
    ensures forall w :: w in Backers(reports, digest) ==> exists i :: 0 <= i < |reports| && reports[i].workerId == w
  {
    if reports != [] {
      BackersBounded(reports[..|reports|-1], digest);
    }
  }

  /** Within those bounds the winners share at most the reward, and with room
      for the products exactly the reward. */
  lemma {:induction false} PayoutBounded(s: NetState, n: nat, t: TaskId, bound: nat, workers: seq<ParticipantId>)
    requires Limbo(s, t) && Quotas(s, n, false) && s.tasks[t].status.Open() && Mild(s, bound)
    requires workers != [] && |workers| <= |s.tasks[t].reports|
    ensures var winners := Weighted(s.participants, workers);
      && 0 < TotalWeight(winners) < LIMIT && WrappedWeight(winners) == TotalWeight(winners)
      && var paid := Paid(Distribute(s.tasks[t].reward, WrappedWeight(winners), winners));
      paid <= s.tasks[t].reward && (Roomy(s, bound) ==> paid == s.tasks[t].reward)
  {
    var winners := Weighted(s.participants, workers);
    WeightsBounded(s.participants, workers, bound);
    ProductAtMost(|workers|, bound, MaxReports(s.config), bound);
    WeightExact(winners);
    RewardIsLocked(s, n, t);
    if Roomy(s, bound) {
      forall i | 0 <= i < |winners| ensures s.tasks[t].reward * winners[i].weight < LIMIT {
        ProductAtMost(s.tasks[t].reward, winners[i].weight, Minted(s.Txs()), bound);
      }
    }
    PaidOut(s.tasks[t].reward, winners);
  }

  /** The ledger after paying the winners of task `t`. */
  lemma {:induction false} PayoutLedger(s: NetState, n: nat, t: TaskId, winners: seq<Winner>)
    requires Limbo(s, t) && Quotas(s, n, false) && s.tasks[t].status.Open()
    requires WrappedWeight(winners) > 0
    requires forall i :: 0 <= i < |winners| ==> winners[i].id in s.participants
    requires Paid(Distribute(s.tasks[t].reward, WrappedWeight(winners), winners)) <= s.tasks[t].reward
    ensures var p := s.tasks[t].projectId;
      var shares := Distribute(s.tasks[t].reward, WrappedWeight(winners), winners);
      var after := s.Txs() + RewardTxs(ProjectAddress(p), t, shares);
      && Covered(after) && Minted(after) == Minted(s.Txs())
      && Raw(after, ProjectAddress(p)) == Raw(s.Txs(), ProjectAddress(p)) - Paid(shares)
      && forall q :: 1 <= q <= n && q != p ==> Raw(after, ProjectAddress(q)) == Raw(s.Txs(), ProjectAddress(q))
  {
    var p := s.tasks[t].projectId;
    var shares := Distribute(s.tasks[t].reward, WrappedWeight(winners), winners);
    DistributeIds(s.tasks[t].reward, WrappedWeight(winners), winners);
    RewardIsLocked(s, n, t);
    assert Sound(s, t) && 1 <= p < s.nextProject;
    forall i, q | 0 <= i < |shares| && 1 <= q <= n ensures shares[i].id != ProjectAddress(q) {
      assert winners[i].id in s.participants;
    }
    RewardsCovered(s.Txs(), ProjectAddress(p), t, shares);
    forall q | 1 <= q <= n && q != p
      ensures Raw(s.Txs() + RewardTxs(ProjectAddress(p), t, shares), ProjectAddress(q))
        == Raw(s.Txs(), ProjectAddress(q))
    {
      RewardsElsewhere(s.Txs(), ProjectAddress(p), t, shares, ProjectAddress(q));
    }
  }

  lemma {:induction false} SettleTxs(s: NetState, t: TaskId, digest: string, winners: seq<Winner>)
    requires t in s.tasks && WrappedWeight(winners) > 0
    ensures Settle(s, t, digest, winners).Txs() ==
      s.Txs() + RewardTxs(ProjectAddress(s.tasks[t].projectId), t,
        Distribute(s.tasks[t].reward, WrappedWeight(winners), winners))
    ensures Settle(s, t, digest, winners).projects == s.projects
  {
    var txs := RewardTxs(ProjectAddress(s.tasks[t].projectId), t,
      Distribute(s.tasks[t].reward, WrappedWeight(winners), winners));
    CommitTxs(s, txs);
    if txs == [] {
      assert s.Txs() + txs == s.Txs();
    }
  }

  lemma {:induction false} SettleQuotas(s: NetState, n: nat, exact: bool, t: TaskId, digest: string,
      winners: seq<Winner>)
    requires Limbo(s, t) && Quotas(s, n, exact) && s.tasks[t].status.Open()
    requires WrappedWeight(winners) > 0
    requires forall i :: 0 <= i < |winners| ==> winners[i].id in s.participants
    requires var paid := Paid(Distribute(s.tasks[t].reward, WrappedWeight(winners), winners));
      paid <= s.tasks[t].reward && (exact ==> paid == s.tasks[t].reward)
    ensures var r := Settle(Release(s, s.tasks[t].projectId, s.tasks[t].reward).state, t, digest, winners);
      Quotas(r, n, exact) && Minted(r.Txs()) == Minted(s.Txs())
  {
    hide Distribute, Paid, Sound, Placed, Shape, Consistent, OneReportEach, Reported, LockedSum, Due, Raw, Covered,
         Minted, Flatten;
    var s1 := Release(s, s.tasks[t].projectId, s.tasks[t].reward).state;
    var r := Settle(s1, t, digest, winners);
    PayoutLedger(s, n, t, winners);
    ReleaseLimbo(s, t);
    SettleTxs(s1, t, digest, winners);
    SettleConsistent(s1, t, digest, winners);
    SettleFrame(s1, t, digest, winners);
    RewardIsLocked(s, n, t);
    CloseQuotas(s, r, n, exact, t, 0, Paid(Distribute(s.tasks[t].reward, WrappedWeight(winners), winners)));
  }

  lemma {:induction false} WinnersKnown(s: NetState, t: TaskId, digest: string)
    requires t in s.tasks && Sound(s, t)
    ensures var workers := Backers(s.tasks[t].reports, digest);
      && |workers| <= |s.tasks[t].reports|
      && forall i :: 0 <= i < |workers| ==> Weighted(s.participants, workers)[i].id in s.participants
  {
    var workers := Backers(s.tasks[t].reports, digest);
    BackersBounded(s.tasks[t].reports, digest);
    forall i | 0 <= i < |workers| ensures workers[i] in s.participants {
      assert workers[i] in workers;
    }
  }

  lemma RequeueMoney(s: NetState, t: TaskId)
    requires t in s.tasks && s.tasks[t].status.Open()
    ensures SameMoney(s, Requeue(s, t).state)
  {}

  lemma FinalizeQuotas(s: NetState, n: nat, exact: bool, t: TaskId, digest: string, bound: nat)
    requires Limbo(s, t) && Quotas(s, n, exact) && s.tasks[t].status.Open() && Mild(s, bound)
    requires exact ==> Roomy(s, bound)
    ensures Quotas(Finalize(s, t, digest).state, n, exact)
    ensures Minted(Finalize(s, t, digest).state.Txs()) == Minted(s.Txs())
  {
    hide Sound, Placed, Shape, Consistent, OneReportEach, Reported, LockedSum, Due, Raw, Covered, Minted, Flatten;
    var task := s.tasks[t];
    var workers := Backers(task.reports, digest);
    if workers == [] {
      RejectQuotas(s, n, exact, t);
    } else if IsBudgetExhausted(digest) {
      ExhaustQuotas(s, n, exact, t, digest, workers, FirstBlob(task.reports, digest));
    } else {
      var winners := Weighted(s.participants, workers);
      WinnersKnown(s, t, digest);
      PayoutBounded(s, n, t, bound, workers);
      ReleaseLimbo(s, t);
      SettleQuotas(s, n, exact, t, digest, winners);
    }
  }

  lemma ConcludeQuotas(s: NetState, n: nat, exact: bool, t: TaskId, bound: nat)
    requires Limbo(s, t) && Quotas(s, n, exact) && s.tasks[t].status.Open() && Mild(s, bound)
    requires exact ==> Roomy(s, bound)
    ensures Quotas(Conclude(s, t).state, n, exact)
    ensures Minted(Conclude(s, t).state.Txs()) == Minted(s.Txs())
  {
    hide Sound, Placed, Shape, Consistent, OneReportEach, Reported, LockedSum, Due, Raw, Covered, Minted, Flatten;
    var task := s.tasks[t];
    match ConsensusDigest(s.participants, task.reports, task.weightRequired)
    case Some(digest) => FinalizeQuotas(s, n, exact, t, digest, bound);
    case None =>
      if |task.reports| >= task.maxReports {
        RejectQuotas(s, n, exact, t);
      } else {
        RequeueMoney(s, t);
        SameMoneyQuotas(s, Requeue(s, t).state, n, exact);
      }
  }
}
