/** `Network` of `src/network.rs`: the object whose methods update the replica
    in place. Every method is proved to leave exactly the state, and return
    exactly the answer, that `NetworkSpec` prescribes; and the ledger object
    underneath always passes its own integrity scan. */
module Replica {
  import opened Words
  import opened Sequences
  import opened Ledger
  import opened Model
  import opened Reward
  import opened NetworkSpec
  import opened TaskInvariants

  class Network {
    var participants: map<ParticipantId, Participant>
    var projects: map<ProjectId, Project>
    var tasks: map<TaskId, Task>
    var pendingTasks: seq<TaskId>
    var leases: map<TaskId, Lease>
    var currentTick: u64
    const config: Config
    var nextProjectId: ProjectId
    var nextTaskId: TaskId
    const blockchain: Blockchain

    ghost predicate Valid()
      reads this, blockchain
    {
      Integrity(blockchain.hash, blockchain.blocks) && Indexed(blockchain.blocks)
    }

    ghost function State(): NetState
      reads this, blockchain
    {
      NetState(participants, projects, tasks, pendingTasks, leases, currentTick, config,
               nextProjectId, nextTaskId, Entries(blockchain.blocks))
    }

    constructor (config: Config, hash: HashFunction)
      ensures Valid() && State() == Fresh(config)
      ensures fresh(blockchain) && blockchain.hash == hash
    {
      this.config := config;
      participants, projects, tasks, leases := map[], map[], map[], map[];
      pendingTasks := [];
      currentTick := 0;
      nextProjectId, nextTaskId := 1, 1;
      blockchain := new Blockchain(hash);
    }

    method CommitTransactions(txs: seq<Transaction>)
      requires Valid()
      modifies blockchain
      ensures Valid() && State() == Commit(old(State()), txs)
    {
      var _ := blockchain.CommitBlock(currentTick, txs);
    }

    method RegisterParticipantWithId(id: ParticipantId, name: string, initialBalance: u64, publicKey: Option<Key>)
      requires Valid()
      modifies this, blockchain
      ensures Valid() && State() == Register(old(State()), id, name, publicKey, initialBalance)
    {
      if id in participants {
        return;
      }
      participants := participants[id := Participant(id, name, 1, publicKey)];
      if initialBalance > 0 {
        CommitTransactions([Mint(id, initialBalance)]);
      }
    }

    method CreateProject(owner: ParticipantId, name: string, key: Option<Key>) returns (r: Outcome<ProjectId>)
      requires Valid()
      modifies this
      ensures Valid() && Step(State(), r) == NewProject(old(State()), owner, name, key)
    {
      if owner !in participants {
        return Err(ParticipantNotFound(owner));
      }
      var id := nextProjectId;
      nextProjectId := nextProjectId + 1;
      projects := projects[id := Project(id, owner, name, 0, 0, key)];
      return Ok(id);
    }

    method DonateToProject(supporter: ParticipantId, p: ProjectId, amount: u64) returns (r: Outcome<()>)
      requires Valid()
      modifies this, blockchain
      ensures Valid() && Step(State(), r) == Donate(old(State()), supporter, p, amount)
    {
      if supporter !in participants {
        return Err(ParticipantNotFound(supporter));
      }
      if p !in projects {
        return Err(ProjectNotFound(p));
      }
      var available := blockchain.BalanceOf(supporter);
      if available < amount {
        return Err(NotEnoughBalance(supporter, amount, available));
      }
      CommitTransactions([Transfer(supporter, ProjectAddress(p), amount, FundMemo(p))]);
      var project := projects[p];
      projects := projects[p := project.(quotaAvailable := Add(project.quotaAvailable, amount))];
      return Ok(());
    }

    method TransferTokens(from: ParticipantId, to: ParticipantId, amount: u64, memo: string) returns (r: Outcome<()>)
      requires Valid()
      modifies blockchain
      ensures Valid() && Step(State(), r) == TransferBetween(old(State()), from, to, amount, memo)
    {
      var available := blockchain.BalanceOf(from);
      if available < amount {
        return Err(NotEnoughBalance(from, amount, available));
      }
      CommitTransactions([Transfer(from, to, amount, memo)]);
      return Ok(());
    }

    method EnsureProjectOwner(who: ParticipantId, p: ProjectId) returns (r: Outcome<()>)
      ensures r == EnsureOwner(State(), who, p)
    {
      if p !in projects {
        return Err(ProjectNotFound(p));
      }
      if projects[p].ownerId == who {
        return Ok(());
      }
      return Err(NotTaskOwner(who, p));
    }

    method FundProjectFromOwner(owner: ParticipantId, p: ProjectId, amount: u64) returns (r: Outcome<()>)
      requires Valid()
      modifies this, blockchain
      ensures Valid() && Step(State(), r) == Fund(old(State()), owner, p, amount)
    {
      r := EnsureProjectOwner(owner, p);
      if r.Ok? {
        r := DonateToProject(owner, p, amount);
      }
    }

    method SubmitTask(owner: ParticipantId, p: ProjectId, reward: u64, payload: string) returns (r: Outcome<TaskId>)
      requires Valid()
      modifies this
      ensures Valid() && Step(State(), r) == NewTask(old(State()), owner, p, reward, payload)
    {
      var owns := EnsureProjectOwner(owner, p);
      if owns.Err? {
        return Err(owns.error);
      }
      var project := projects[p];
      if project.quotaAvailable < reward {
        return Err(NotEnoughProjectQuota(p, reward, project.quotaAvailable));
      }
      projects := projects[p := project.(quotaAvailable := project.quotaAvailable - reward,
                                         quotaLocked := Add(project.quotaLocked, reward))];
      var id := nextTaskId;
      nextTaskId := nextTaskId + 1;
      tasks := tasks[id := Task(id, p, reward, payload, Max(config.consensusQuorum, 1), MaxReports(config), [],
        Pending, None)];
      EnqueuePending(id);
      return Ok(id);
    }

    method EnqueuePending(t: TaskId)
      modifies this`pendingTasks
      ensures pendingTasks == Enqueue(old(pendingTasks), t)
    {
      if t !in pendingTasks {
        pendingTasks := pendingTasks + [t];
      }
    }

    method AdjustReputation(w: ParticipantId, delta: int)
      requires -HALF <= delta < HALF
      modifies this`participants
      ensures participants == Adjust(old(participants), w, delta)
    {
      if w in participants {
        var p := participants[w];
        if delta >= 0 {
          participants := participants[w := p.(reputation := SatAdd(p.reputation, AsU64(delta)))];
        } else {
          var decrease := AsU64(NegI64(delta));
          participants := participants[w := p.(reputation := Max(SatSub(p.reputation, decrease), 1))];
        }
      }
    }

    method AdjustReputations(ws: seq<ParticipantId>, delta: int)
      requires -HALF <= delta < HALF
      modifies this`participants
      ensures participants == AdjustEach(old(participants), ws, delta)
    {
      for i := 0 to |ws|
        invariant participants == AdjustEach(old(participants), ws[..i], delta)
      {
        assert ws[..i+1][..i] == ws[..i];
        AdjustReputation(ws[i], delta);
      }
      assert ws[..|ws|] == ws;
    }

    /** The lease map is enumerated in no particular order. */
    method CollectExpired() returns (ids: seq<TaskId>)
      ensures ids == ExpiredIds(State())
    {
      ids := [];
      var rest := leases.Keys;
      ghost var seen: seq<TaskId> := [];
      while rest != {}
        invariant rest <= leases.Keys
        invariant Distinct(seen)
        invariant forall t :: t in seen <==> t in leases && t !in rest
        invariant ids == ExpiredIn(State(), seen)
        decreases |rest|
      {
        var t :| t in rest;
        if leases[t].expiresAt <= currentTick {
          ids := ids + [t];
        }
        ghost var before := seen;
        seen := seen + [t];
        assert seen[..|seen|-1] == before;
        rest := rest - {t};
      }
      ReclaimOrderIndependent(State(), seen);
      ids := SortBy(ids, Itself);
    }

    method ReclaimExpiredLeases()
      requires Valid()
      modifies this, blockchain
      ensures Valid() && State() == Reclaim(old(State()))
    {
      hide Integrity, Indexed, ReclaimOne, SlashOf;
      ghost var s := State();
      var ids := CollectExpired();
      var slashes: seq<Transaction> := [];
      for i := 0 to |ids|
        invariant Valid() && unchanged(blockchain)
        invariant State() == ReclaimAll(s, ids[..i])
        invariant slashes == Slashes(s, ids[..i])
      {
        ghost var mid := State();
        var t := ids[i];
        assert ids[..i+1][..i] == ids[..i];
        var slash := ReclaimLease(t);
        slashes := slashes + slash;
        assert State() == ReclaimOne(mid, t);
      }
      assert ids[..|ids|] == ids;
      if slashes != [] {
        CommitTransactions(slashes);
      }
    }

    /** One turn of the loop in `reclaim_expired_leases`. */
    method ReclaimLease(t: TaskId) returns (slash: seq<Transaction>)
      requires Valid()
      modifies this`leases, this`participants, this`tasks, this`pendingTasks
      ensures Valid() && State() == ReclaimOne(old(State()), t)
      ensures slash == SlashOf(old(State()), t)
    {
      slash := [];
      var lost := t in leases;
      var worker := if lost then leases[t].workerId else 0;
      leases := leases - {t};
      if t in tasks && tasks[t].status.Assigned? {
        if lost {
          AdjustReputation(worker, PenaltyDelta(config));
          var balance := blockchain.BalanceOf(worker);
          var amount := Min(config.leaseSlash, balance);
          if amount > 0 {
            slash := [Burn(worker, amount)];
          }
        }
        tasks := tasks[t := tasks[t].(status := Pending)];
        EnqueuePending(t);
      }
    }

    method TakeNextTaskFor(w: ParticipantId) returns (r: Outcome<TaskId>)
      modifies this`pendingTasks
      ensures match BestTask(old(State()), w, old(pendingTasks))
              case None => r == Err(NoPendingTasks) && pendingTasks == old(pendingTasks)
              case Some(t) => r == Ok(t) && pendingTasks == Without(old(pendingTasks), t)
    {
      var best: Option<TaskId> := None;
      for i := 0 to |pendingTasks|
        invariant pendingTasks == old(pendingTasks)
        invariant best == BestTask(old(State()), w, pendingTasks[..i])
      {
        assert pendingTasks[..i+1][..i] == pendingTasks[..i];
        var t := pendingTasks[i];
        if CanTakeTask(w, t) && (best == None || AtMost(PriorityOf(best.value), PriorityOf(t))) {
          best := Some(t);
        }
      }
      assert pendingTasks[..|pendingTasks|] == pendingTasks;
      if best == None {
        return Err(NoPendingTasks);
      }
      pendingTasks := Without(pendingTasks, best.value);
      return Ok(best.value);
    }

    predicate CanTakeTask(w: ParticipantId, t: TaskId)
      reads this, blockchain
      ensures CanTakeTask(w, t) == CanTake(State(), w, t)
    {
      t in tasks && tasks[t].status.Pending? && !Reported(tasks[t], w)
    }

    function PriorityOf(t: TaskId): (k: PriorityKey)
      reads this, blockchain
      ensures k == KeyOf(State(), t)
    {
      if t in tasks && tasks[t].projectId in projects
      then PriorityKey(projects[tasks[t].projectId].PriorityScore(), t)
      else PriorityKey(0, MAX)
    }

    method AssignTask(w: ParticipantId, t: TaskId) returns (r: Outcome<Task>)
      requires Valid()
      modifies this`leases, this`tasks
      ensures Valid() && Step(State(), r) == Assign(old(State()), w, t)
    {
      var expires := Add(currentTick, config.leaseTimeoutTicks);
      leases := leases[t := Lease(w, expires)];
      if t !in tasks {
        return Err(TaskNotFound(t));
      }
      tasks := tasks[t := tasks[t].(status := Assigned(w, expires))];
      return Ok(tasks[t]);
    }

    method RequestTask(w: ParticipantId) returns (r: Outcome<Task>)
      requires Valid()
      modifies this, blockchain
      ensures Valid() && Step(State(), r) == Request(old(State()), w)
    {
      if w !in participants {
        return Err(ParticipantNotFound(w));
      }
      ReclaimParticipants(State());
      ReclaimExpiredLeases();
      var taken := TakeNextTaskFor(w);
      if taken.Err? {
        return Err(taken.error);
      }
      r := AssignTask(w, taken.value);
    }

    method SendHeartbeat(w: ParticipantId, t: TaskId) returns (r: Outcome<()>)
      requires Valid()
      modifies this, blockchain
      ensures Valid() && Step(State(), r) == Heartbeat(old(State()), w, t)
    {
      if w !in participants {
        return Err(ParticipantNotFound(w));
      }
      ReclaimExpiredLeases();
      var expires := Add(currentTick, config.leaseTimeoutTicks);
      if t !in leases || leases[t].workerId != w {
        return Err(TaskNotAssignedToWorker(t, w));
      }
      leases := leases[t := Lease(w, expires)];
      if t !in tasks {
        return Err(TaskNotFound(t));
      }
      tasks := tasks[t := tasks[t].(status := Assigned(w, expires))];
      return Ok(());
    }

    method Tick(n: u64)
      requires Valid()
      modifies this, blockchain
      ensures Valid() && State() == Advance(old(State()), n)
    {
      currentTick := SatAdd(currentTick, n);
      ReclaimExpiredLeases();
    }

    /** The running weights live in one map from digest to sum. */
    method FindConsensusDigest(reports: seq<TaskReport>, required: u64) returns (r: Option<string>)
      ensures r == ConsensusDigest(participants, reports, required)
    {
      var weights: map<string, u64> := map[];
      for i := 0 to |reports|
        invariant forall d :: RunningWeight(participants, reports[..i], d) == if d in weights then weights[d] else 0
        invariant ConsensusDigest(participants, reports, required) == ConsensusFrom(participants, reports, required, i)
      {
        assert reports[..i+1][..i] == reports[..i];
        var report := reports[i];
        var sum := if report.resultDigest in weights then weights[report.resultDigest] else 0;
        sum := Add(sum, WeightOf(participants, report.workerId));
        weights := weights[report.resultDigest := sum];
        if sum >= required {
          return Some(report.resultDigest);
        }
      }
      return None;
    }

    method ReleaseLockedQuota(p: ProjectId, amount: u64) returns (r: Outcome<()>)
      requires Valid()
      modifies this`projects
      ensures Valid() && Step(State(), r) == Release(old(State()), p, amount)
    {
      if p !in projects {
        return Err(ProjectNotFound(p));
      }
      projects := projects[p := projects[p].(quotaLocked := SatSub(projects[p].quotaLocked, amount))];
      return Ok(());
    }

    method RejectTask(t: TaskId) returns (r: Outcome<()>)
      requires Valid()
      modifies this`projects, this`participants, this`tasks
      ensures Valid() && Step(State(), r) == Reject(old(State()), t)
    {
      if t !in tasks {
        return Err(TaskNotFound(t));
      }
      var task := tasks[t];
      r := ReleaseLockedQuota(task.projectId, task.reward);
      if r.Err? {
        return;
      }
      var project := projects[task.projectId];
      projects := projects[task.projectId := project.(quotaAvailable := Add(project.quotaAvailable, task.reward))];
      AdjustReputations(Reporters(task.reports), PenaltyDelta(config));
      tasks := tasks[t := task.(status := Rejected)];
      return Ok(());
    }

    method FinalizeBudgetExhausted(t: TaskId, digest: string, workers: seq<ParticipantId>, blob: Option<Blob>)
      returns (r: Outcome<()>)
      requires Valid() && t in tasks
      modifies this`projects, this`tasks, blockchain
      ensures Valid() && Step(State(), r) == Exhaust(old(State()), t, digest, workers, blob)
    {
      var task := tasks[t];
      r := ReleaseLockedQuota(task.projectId, task.reward);
      if r.Err? {
        return;
      }
      if task.reward > 0 {
        CommitTransactions([Burn(ProjectAddress(task.projectId), task.reward)]);
      }
      tasks := tasks[t := task.(status := QuotaExhausted(digest, workers), encryptedResult := blob)];
      return Ok(());
    }

    method FinalizeTask(t: TaskId, digest: string) returns (r: Outcome<()>)
      requires Valid()
      modifies this`projects, this`participants, this`tasks, blockchain
      ensures Valid() && Step(State(), r) == Finalize(old(State()), t, digest)
    {
      if t !in tasks {
        return Err(TaskNotFound(t));
      }
      var task := tasks[t];
      var workers := Backers(task.reports, digest);
      var blob := FirstBlob(task.reports, digest);
      if workers == [] {
        r := RejectTask(t);
        return;
      }
      if IsBudgetExhausted(digest) {
        r := FinalizeBudgetExhausted(t, digest, workers, blob);
        return;
      }
      r := ReleaseLockedQuota(task.projectId, task.reward);
      if r.Err? {
        return;
      }
      var winners := Weighted(participants, workers);
      if WrappedWeight(winners) == 0 {
        r := RejectTask(t);
        return;
      }
      PayWinners(t, digest, winners);
      return Ok(());
    }

    /** The paying half of `finalize_task`. */
    method PayWinners(t: TaskId, digest: string, winners: seq<Winner>)
      requires Valid() && t in tasks && WrappedWeight(winners) > 0
      modifies this`participants, this`tasks, blockchain
      ensures Valid() && State() == Settle(old(State()), t, digest, winners)
    {
      var task := tasks[t];
      var workers := Backers(task.reports, digest);
      var total: u64 := 0;
      for i := 0 to |winners|
        invariant total == WrappedWeight(winners[..i])
      {
        assert winners[..i+1][..i] == winners[..i];
        total := Add(total, winners[i].weight);
      }
      assert winners[..|winners|] == winners;
      var shares := DistributeReward(task.reward, total, winners);
      var txs := RewardTxs(ProjectAddress(task.projectId), t, shares);
      if txs != [] {
        CommitTransactions(txs);
      }
      AdjustReputations(workers, RewardDelta(config));
      AdjustReputations(Dissenters(task.reports, digest), PenaltyDelta(config));
      tasks := tasks[t := task.(status := Completed(digest, workers),
        encryptedResult := FirstBlob(task.reports, digest))];
    }

    method ReturnTaskToQueue(t: TaskId) returns (r: Outcome<()>)
      requires Valid()
      modifies this`tasks, this`pendingTasks
      ensures Valid() && Step(State(), r) == Requeue(old(State()), t)
    {
      if t !in tasks {
        return Err(TaskNotFound(t));
      }
      tasks := tasks[t := tasks[t].(status := Pending)];
      EnqueuePending(t);
      return Ok(());
    }

    method SubmitResult(w: ParticipantId, t: TaskId, digest: string, cost: u64, blob: Option<Blob>)
      returns (r: Outcome<bool>)
      requires Valid()
      modifies this, blockchain
      ensures Valid() && Step(State(), r) == Submit(old(State()), w, t, digest, cost, blob)
    {
      if w !in participants {
        return Err(ParticipantNotFound(w));
      }
      ReclaimExpiredLeases();
      if t !in leases || leases[t].workerId != w {
        return Err(TaskNotAssignedToWorker(t, w));
      }
      leases := leases - {t};
      if t !in tasks {
        return Err(TaskNotFound(t));
      }
      tasks := tasks[t := tasks[t].(reports := tasks[t].reports + [TaskReport(w, digest, cost, blob)])];
      r := ConcludeReport(t);
    }

    /** The deciding half of `submit_result`. */
    method ConcludeReport(t: TaskId) returns (r: Outcome<bool>)
      requires Valid() && t in tasks
      modifies this, blockchain
      ensures Valid() && Step(State(), r) == Conclude(old(State()), t)
    {
      var task := tasks[t];
      var winner := FindConsensusDigest(task.reports, task.weightRequired);
      var done: Outcome<()>;
      if winner.Some? {
        done := FinalizeTask(t, winner.value);
      } else if |task.reports| >= task.maxReports {
        done := RejectTask(t);
      } else {
        done := ReturnTaskToQueue(t);
      }
      if done.Err? {
        return Err(done.error);
      }
      return Ok(winner.Some? || |task.reports| >= task.maxReports);
    }

    method ApplyOp(op: LedgerOp)
      requires Valid()
      modifies this, blockchain
      ensures Valid() && State() == Apply(old(State()), op)
    {
      match op {
        case RegisterParticipant(id, name, key, balance) =>
          RegisterParticipantWithId(id, name, balance, Some(key));
        case CreateProject(owner, name, key) =>
          var _ := CreateProject(owner, name, key);
        case TransferTokens(from, to, amount, memo) =>
          var _ := TransferTokens(from, to, amount, memo);
        case FundProject(owner, p, amount) =>
          var _ := FundProjectFromOwner(owner, p, amount);
        case DonateToProject(supporter, p, amount) =>
          var _ := DonateToProject(supporter, p, amount);
        case SubmitTask(owner, p, reward, payload) =>
          var _ := SubmitTask(owner, p, reward, payload);
        case RequestTask(w, _) =>
          var _ := RequestTask(w);
        case SubmitResult(w, t, digest, cost, blob) =>
          var _ := SubmitResult(w, t, digest, cost, blob);
        case Tick(n) =>
          Tick(n);
      }
    }

    method ApplyOps(ops: seq<LedgerOp>)
      requires Valid()
      modifies this, blockchain
      ensures Valid() && State() == ApplyAll(old(State()), ops)
    {
      for i := 0 to |ops|
        invariant Valid() && State() == ApplyAll(old(State()), ops[..i])
      {
        assert ops[..i+1][..i] == ops[..i];
        ApplyOp(ops[i]);
      }
      assert ops[..|ops|] == ops;
    }
  }
}
