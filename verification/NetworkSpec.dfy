/** The economic replica of `src/network.rs` as functions on values: what each
    operation makes of a state, branch by branch, including the state a failing
    operation leaves behind. The class `Replica.Network` is proved to compute
    exactly these functions. */
module NetworkSpec {
  import opened Words
  import opened Sequences
  import opened Ledger
  import opened Model
  import opened Reward

  datatype NetState = NetState(
    participants: map<ParticipantId, Participant>,
    projects: map<ProjectId, Project>,
    tasks: map<TaskId, Task>,
    pending: seq<TaskId>,
    leases: map<TaskId, Lease>,
    now: u64,
    config: Config,
    nextProject: ProjectId,
    nextTask: TaskId,
    ledger: seq<Entry>)
  {
    function Txs(): seq<Transaction> { Flatten(ledger) }

    function BalanceOf(a: Address): u64 { Balance(Txs(), a) }
  }

  datatype Step<T> = Step(state: NetState, out: Outcome<T>)

  function Fresh(config: Config): NetState {
    NetState(map[], map[], map[], [], map[], 0, config, 1, 1, [Entry(0, [])])
  }

  function Commit(s: NetState, txs: seq<Transaction>): NetState {
    s.(ledger := s.ledger + [Entry(s.now, txs)])
  }

  // -------------------------------------------------------- accounts, projects

  function Register(s: NetState, id: ParticipantId, name: string, key: Option<Key>, balance: u64): NetState {
    if id in s.participants then s
    else
      var s1 := s.(participants := s.participants[id := Participant(id, name, 1, key)]);
      if balance > 0 then Commit(s1, [Mint(id, balance)]) else s1
  }

  function NewProject(s: NetState, owner: ParticipantId, name: string, key: Option<Key>): Step<ProjectId> {
    if owner !in s.participants then Step(s, Err(ParticipantNotFound(owner)))
    else
      var p := s.nextProject;
      Step(s.(nextProject := p + 1, projects := s.projects[p := Project(p, owner, name, 0, 0, key)]), Ok(p))
  }

  function Donate(s: NetState, supporter: ParticipantId, p: ProjectId, amount: u64): Step<()> {
    if supporter !in s.participants then Step(s, Err(ParticipantNotFound(supporter)))
    else if p !in s.projects then Step(s, Err(ProjectNotFound(p)))
    else
      var available := s.BalanceOf(supporter);
      if available < amount then Step(s, Err(NotEnoughBalance(supporter, amount, available)))
      else
        var s1 := Commit(s, [Transfer(supporter, ProjectAddress(p), amount, FundMemo(p))]);
        var project := s.projects[p];
        Step(s1.(projects := s.projects[p := project.(quotaAvailable := Add(project.quotaAvailable, amount))]), Ok(()))
  }

  function TransferBetween(s: NetState, from: ParticipantId, to: ParticipantId, amount: u64, memo: string): Step<()> {
    var available := s.BalanceOf(from);
    if available < amount then Step(s, Err(NotEnoughBalance(from, amount, available)))
    else Step(Commit(s, [Transfer(from, to, amount, memo)]), Ok(()))
  }

  function EnsureOwner(s: NetState, who: ParticipantId, p: ProjectId): Outcome<()> {
    if p !in s.projects then Err(ProjectNotFound(p))
    else if s.projects[p].ownerId == who then Ok(())
    else Err(NotTaskOwner(who, p))
  }

  function Fund(s: NetState, owner: ParticipantId, p: ProjectId, amount: u64): Step<()> {
    match EnsureOwner(s, owner, p)
    case Err(e) => Step(s, Err(e))
    case Ok(_) => Donate(s, owner, p, amount)
  }

  // -------------------------------------------------------------------- tasks

  function NewTask(s: NetState, owner: ParticipantId, p: ProjectId, reward: u64, payload: string): Step<TaskId> {
    match EnsureOwner(s, owner, p)
    case Err(e) => Step(s, Err(e))
    case Ok(_) =>
      var project := s.projects[p];
      if project.quotaAvailable < reward then
        Step(s, Err(NotEnoughProjectQuota(p, reward, project.quotaAvailable)))
      else
        var locked := project.(quotaAvailable := project.quotaAvailable - reward,
                               quotaLocked := Add(project.quotaLocked, reward));
        var t := s.nextTask;
        var task := Task(t, p, reward, payload, Max(s.config.consensusQuorum, 1), MaxReports(s.config), [], Pending,
          None);
        Step(s.(projects := s.projects[p := locked], nextTask := t + 1, tasks := s.tasks[t := task],
                pending := Enqueue(s.pending, t)), Ok(t))
  }

  function MaxReports(c: Config): nat {
    if c.maxReportsPerTask < 1 then 1 else c.maxReportsPerTask
  }

  function Enqueue(pending: seq<TaskId>, t: TaskId): seq<TaskId> {
    if t in pending then pending else pending + [t]
  }

  // --------------------------------------------------------------- reputation

  function Adjusted(reputation: u64, delta: int): u64
    requires -HALF <= delta < HALF
  {
    if delta >= 0 then SatAdd(reputation, AsU64(delta))
    else Max(SatSub(reputation, AsU64(NegI64(delta))), 1)
  }

  function Adjust(ps: map<ParticipantId, Participant>, id: ParticipantId, delta: int): map<ParticipantId, Participant>
    requires -HALF <= delta < HALF
  {
    if id in ps then ps[id := ps[id].(reputation := Adjusted(ps[id].reputation, delta))] else ps
  }

  function RewardDelta(c: Config): (r: int)
    ensures -HALF <= r < HALF
  {
    AsI64(c.reputationReward)
  }

  function PenaltyDelta(c: Config): (r: int)
    ensures -HALF <= r < HALF
  {
    NegI64(AsI64(c.reputationPenalty))
  }

  // ------------------------------------------------------------ expired leases

  /** Effect of one expired lease; slashes are collected, not yet committed. */
  function ReclaimOne(s: NetState, t: TaskId): NetState {
    var s1 := s.(leases := s.leases - {t});
    if t in s.tasks && s.tasks[t].status.Assigned? then
      var s2 := if t in s.leases then
                  s1.(participants := Adjust(s.participants, s.leases[t].workerId, PenaltyDelta(s.config)))
                else s1;
      s2.(tasks := s.tasks[t := s.tasks[t].(status := Pending)], pending := Enqueue(s.pending, t))
    else s1
  }

  function SlashOf(s: NetState, t: TaskId): seq<Transaction> {
    if t in s.tasks && s.tasks[t].status.Assigned? && t in s.leases then
      var w := s.leases[t].workerId;
      var slash := Min(s.config.leaseSlash, s.BalanceOf(w));
      if slash > 0 then [Burn(w, slash)] else []
    else []
  }

  function ReclaimAll(s: NetState, ids: seq<TaskId>): NetState {
    if ids == [] then s else ReclaimOne(ReclaimAll(s, ids[..|ids|-1]), ids[|ids|-1])
  }

  function Slashes(s: NetState, ids: seq<TaskId>): seq<Transaction> {
    if ids == [] then []
    else Slashes(s, ids[..|ids|-1]) + SlashOf(ReclaimAll(s, ids[..|ids|-1]), ids[|ids|-1])
  }

  function CommitSlashes(s: NetState, txs: seq<Transaction>): NetState {
    if txs == [] then s else Commit(s, txs)
  }

  /** Expired leases in the order in which an enumeration of the map meets
      them. */
  function ExpiredIn(s: NetState, enumeration: seq<TaskId>): (r: seq<TaskId>)
    requires forall t :: t in enumeration ==> t in s.leases
  {
    if enumeration == [] then []
    else
      var rest := ExpiredIn(s, enumeration[..|enumeration|-1]);
      var t := enumeration[|enumeration|-1];
      if s.leases[t].expiresAt <= s.now then rest + [t] else rest
  }

  /** `reclaim_expired_leases`, given the order in which the lease map happens
      to be enumerated. */
  function ReclaimEnumerated(s: NetState, enumeration: seq<TaskId>): NetState
    requires forall t :: t in enumeration ==> t in s.leases
  {
    var ids := SortBy(ExpiredIn(s, enumeration), Itself);
    CommitSlashes(ReclaimAll(s, ids), Slashes(s, ids))
  }

  /** The expired leases in ascending order of task id. */
  function ExpiredUpTo(s: NetState, n: nat): seq<TaskId> {
    if n == 0 then []
    else if n - 1 in s.leases && s.leases[n-1].expiresAt <= s.now then ExpiredUpTo(s, n - 1) + [n - 1]
    else ExpiredUpTo(s, n - 1)
  }

  function MaxId(ids: set<TaskId>): (m: nat)
    ensures forall t :: t in ids ==> t < m
  {
    if ids == {} then 0
    else
      var t := Least(ids);
      var m := MaxId(ids - {t});
      assert forall u :: u in ids ==> u == t || u in ids - {t};
      if m <= t then t + 1 else m
  }

  function ExpiredIds(s: NetState): seq<TaskId> {
    ExpiredUpTo(s, MaxId(s.leases.Keys))
  }

  /** `reclaim_expired_leases` */
  function Reclaim(s: NetState): NetState {
    var ids := ExpiredIds(s);
    CommitSlashes(ReclaimAll(s, ids), Slashes(s, ids))
  }

  // -------------------------------------------------------------- scheduling

  predicate Reported(task: Task, w: ParticipantId) {
    exists i :: 0 <= i < |task.reports| && task.reports[i].workerId == w
  }

  predicate CanTake(s: NetState, w: ParticipantId, t: TaskId) {
    t in s.tasks && s.tasks[t].status.Pending? && !Reported(s.tasks[t], w)
  }

  datatype PriorityKey = PriorityKey(score: u64, id: nat)

  function KeyOf(s: NetState, t: TaskId): PriorityKey {
    if t in s.tasks && s.tasks[t].projectId in s.projects
    then PriorityKey(s.projects[s.tasks[t].projectId].PriorityScore(), t)
    else PriorityKey(0, MAX)
  }

  /** Key order: higher score first, then the lower id. */
  predicate AtMost(a: PriorityKey, b: PriorityKey) {
    a.score < b.score || (a.score == b.score && a.id >= b.id)
  }

  /** `max_by_key` over the eligible queue entries: the last greatest wins. */
  function BestTask(s: NetState, w: ParticipantId, queue: seq<TaskId>): Option<TaskId> {
    if queue == [] then None
    else
      var best := BestTask(s, w, queue[..|queue|-1]);
      var t := queue[|queue|-1];
      if !CanTake(s, w, t) then best
      else if best.Some? && !AtMost(KeyOf(s, best.value), KeyOf(s, t)) then best
      else Some(t)
  }

  function Assign(s: NetState, w: ParticipantId, t: TaskId): Step<Task> {
    var expires := Add(s.now, s.config.leaseTimeoutTicks);
    var s1 := s.(leases := s.leases[t := Lease(w, expires)]);
    if t !in s.tasks then Step(s1, Err(TaskNotFound(t)))
    else
      var task := s.tasks[t].(status := Assigned(w, expires));
      Step(s1.(tasks := s.tasks[t := task]), Ok(task))
  }

  function Request(s: NetState, w: ParticipantId): Step<Task> {
    if w !in s.participants then Step(s, Err(ParticipantNotFound(w)))
    else
      var s1 := Reclaim(s);
      match BestTask(s1, w, s1.pending)
      case None => Step(s1, Err(NoPendingTasks))
      case Some(t) => Assign(s1.(pending := Without(s1.pending, t)), w, t)
  }

  function Heartbeat(s: NetState, w: ParticipantId, t: TaskId): Step<()> {
    if w !in s.participants then Step(s, Err(ParticipantNotFound(w)))
    else
      var s1 := Reclaim(s);
      if t !in s1.leases || s1.leases[t].workerId != w then Step(s1, Err(TaskNotAssignedToWorker(t, w)))
      else
        var expires := Add(s1.now, s1.config.leaseTimeoutTicks);
        var s2 := s1.(leases := s1.leases[t := Lease(w, expires)]);
        if t !in s2.tasks then Step(s2, Err(TaskNotFound(t)))
        else Step(s2.(tasks := s2.tasks[t := s2.tasks[t].(status := Assigned(w, expires))]), Ok(()))
  }

  function Advance(s: NetState, n: u64): NetState {
    Reclaim(s.(now := SatAdd(s.now, n)))
  }

  // ------------------------------------------------------------------ results

  function WeightOf(ps: map<ParticipantId, Participant>, w: ParticipantId): u64 {
    if w in ps then Max(ps[w].reputation, 1) else 1
  }

  /** Running total of a digest's reporters' weights, wrapping as `+=` does. */
  function RunningWeight(ps: map<ParticipantId, Participant>, reports: seq<TaskReport>, digest: string): u64 {
    if reports == [] then 0
    else
      var before := RunningWeight(ps, reports[..|reports|-1], digest);
      var last := reports[|reports|-1];
      if last.resultDigest == digest then Add(before, WeightOf(ps, last.workerId)) else before
  }

  /** The digest of the first report at which its running weight reaches the
      requirement. */
  function ConsensusFrom(ps: map<ParticipantId, Participant>, reports: seq<TaskReport>, required: u64,
      i: nat): Option<string>
    requires i <= |reports|
    decreases |reports| - i
  {
    if i == |reports| then None
    else if RunningWeight(ps, reports[..i+1], reports[i].resultDigest) >= required then Some(reports[i].resultDigest)
    else ConsensusFrom(ps, reports, required, i + 1)
  }

  function ConsensusDigest(ps: map<ParticipantId, Participant>, reports: seq<TaskReport>,
      required: u64): Option<string> {
    ConsensusFrom(ps, reports, required, 0)
  }

  function Backers(reports: seq<TaskReport>, digest: string): seq<ParticipantId> {
    if reports == [] then []
    else
      var rest := Backers(reports[..|reports|-1], digest);
      var last := reports[|reports|-1];
      if last.resultDigest == digest then rest + [last.workerId] else rest
  }

  function Dissenters(reports: seq<TaskReport>, digest: string): seq<ParticipantId> {
    if reports == [] then []
    else
      var rest := Dissenters(reports[..|reports|-1], digest);
      var last := reports[|reports|-1];
      if last.resultDigest != digest then rest + [last.workerId] else rest
  }

  function Reporters(reports: seq<TaskReport>): seq<ParticipantId> {
    if reports == [] then [] else Reporters(reports[..|reports|-1]) + [reports[|reports|-1].workerId]
  }

  function FirstBlob(reports: seq<TaskReport>, digest: string): Option<Blob> {
    if reports == [] then None
    else if reports[0].resultDigest == digest && reports[0].encryptedResult.Some? then reports[0].encryptedResult
    else FirstBlob(reports[1..], digest)
  }

  function Weighted(ps: map<ParticipantId, Participant>, workers: seq<ParticipantId>): (r: seq<Winner>)
    ensures |r| == |workers|
    ensures forall i :: 0 <= i < |r| ==> r[i] == Winner(workers[i], WeightOf(ps, workers[i]))
  {
    if workers == [] then []
    else
      var w := workers[|workers|-1];
      Weighted(ps, workers[..|workers|-1]) + [Winner(w, WeightOf(ps, w))]
  }

  function AdjustEach(ps: map<ParticipantId, Participant>, workers: seq<ParticipantId>,
      delta: int): map<ParticipantId, Participant>
    requires -HALF <= delta < HALF
  {
    if workers == [] then ps
    else Adjust(AdjustEach(ps, workers[..|workers|-1], delta), workers[|workers|-1], delta)
  }

  function RewardTxs(from: Address, t: TaskId, shares: seq<Share>): seq<Transaction> {
    if shares == [] then []
    else
      var rest := RewardTxs(from, t, shares[..|shares|-1]);
      var last := shares[|shares|-1];
      if last.amount > 0 then rest + [Transfer(from, last.id, last.amount, RewardMemo(t))] else rest
  }

  function FundMemo(p: ProjectId): string { "fund:project=" + Decimal(p) }

  function RewardMemo(t: TaskId): string { "reward:task=" + Decimal(t) }

  function Release(s: NetState, p: ProjectId, amount: u64): Step<()> {
    if p !in s.projects then Step(s, Err(ProjectNotFound(p)))
    else
      var project := s.projects[p];
      Step(s.(projects := s.projects[p := project.(quotaLocked := SatSub(project.quotaLocked, amount))]), Ok(()))
  }

  function Reject(s: NetState, t: TaskId): Step<()> {
    if t !in s.tasks then Step(s, Err(TaskNotFound(t)))
    else
      var task := s.tasks[t];
      var released := Release(s, task.projectId, task.reward);
      if released.out.Err? then released
      else
        var s1 := released.state;
        var project := s1.projects[task.projectId];
        var s2 := s1.(projects := s1.projects[task.projectId :=
                        project.(quotaAvailable := Add(project.quotaAvailable, task.reward))]);
        var s3 := s2.(participants := AdjustEach(s2.participants, Reporters(task.reports), PenaltyDelta(s.config)));
        Step(s3.(tasks := s3.tasks[t := task.(status := Rejected)]), Ok(()))
  }

  function Exhaust(s: NetState, t: TaskId, digest: string, workers: seq<ParticipantId>, blob: Option<Blob>): Step<()>
    requires t in s.tasks
  {
    var task := s.tasks[t];
    var released := Release(s, task.projectId, task.reward);
    if released.out.Err? then released
    else
      var s1 := if task.reward > 0
                then Commit(released.state, [Burn(ProjectAddress(task.projectId), task.reward)])
                else released.state;
      Step(s1.(tasks := s1.tasks[t := task.(status := QuotaExhausted(digest, workers), encryptedResult := blob)]),
        Ok(()))
  }

  /** Pay the winners, move reputations and settle the task. */
  function Settle(s: NetState, t: TaskId, digest: string, winners: seq<Winner>): NetState
    requires t in s.tasks && WrappedWeight(winners) > 0
  {
    var task := s.tasks[t];
    var workers := Backers(task.reports, digest);
    var shares := Distribute(task.reward, WrappedWeight(winners), winners);
    var txs := RewardTxs(ProjectAddress(task.projectId), t, shares);
    var s1 := if txs == [] then s else Commit(s, txs);
    var praised := AdjustEach(s1.participants, workers, RewardDelta(s.config));
    var blamed := AdjustEach(praised, Dissenters(task.reports, digest), PenaltyDelta(s.config));
    s1.(participants := blamed,
        tasks := s1.tasks[t := task.(status := Completed(digest, workers),
          encryptedResult := FirstBlob(task.reports, digest))])
  }

  function Finalize(s: NetState, t: TaskId, digest: string): Step<()> {
    if t !in s.tasks then Step(s, Err(TaskNotFound(t)))
    else
      var task := s.tasks[t];
      var workers := Backers(task.reports, digest);
      if workers == [] then Reject(s, t)
      else if IsBudgetExhausted(digest) then Exhaust(s, t, digest, workers, FirstBlob(task.reports, digest))
      else
        var released := Release(s, task.projectId, task.reward);
        if released.out.Err? then released
        else
          var winners := Weighted(s.participants, workers);
          if WrappedWeight(winners) == 0 then Reject(released.state, t)
          else Step(Settle(released.state, t, digest, winners), Ok(()))
  }

  function Requeue(s: NetState, t: TaskId): Step<()> {
    if t !in s.tasks then Step(s, Err(TaskNotFound(t)))
    else Step(s.(tasks := s.tasks[t := s.tasks[t].(status := Pending)], pending := Enqueue(s.pending, t)), Ok(()))
  }

  /** What follows once the report has been added to its task. */
  function Conclude(s: NetState, t: TaskId): Step<bool>
    requires t in s.tasks
  {
    var task := s.tasks[t];
    match ConsensusDigest(s.participants, task.reports, task.weightRequired)
    case Some(digest) => Tell(Finalize(s, t, digest), true)
    case None =>
      if |task.reports| >= task.maxReports then Tell(Reject(s, t), true)
      else Tell(Requeue(s, t), false)
  }

  function Tell(step: Step<()>, done: bool): Step<bool> {
    Step(step.state, if step.out.Err? then Err(step.out.error) else Ok(done))
  }

  function Report(s: NetState, w: ParticipantId, t: TaskId, report: TaskReport): NetState
    requires t in s.tasks
  {
    s.(leases := s.leases - {t}, tasks := s.tasks[t := s.tasks[t].(reports := s.tasks[t].reports + [report])])
  }

  function Submit(s: NetState, w: ParticipantId, t: TaskId, digest: string, cost: u64, blob: Option<Blob>): Step<bool> {
    if w !in s.participants then Step(s, Err(ParticipantNotFound(w)))
    else
      var s1 := Reclaim(s);
      if t !in s1.leases || s1.leases[t].workerId != w then Step(s1, Err(TaskNotAssignedToWorker(t, w)))
      else if t !in s1.tasks then Step(s1.(leases := s1.leases - {t}), Err(TaskNotFound(t)))
      else Conclude(Report(s1, w, t, TaskReport(w, digest, cost, blob)), t)
  }

  // --------------------------------------------------------------- operations

  /** `apply_op`: errors are discarded. */
  function Apply(s: NetState, op: LedgerOp): NetState {
    match op
    case RegisterParticipant(id, name, key, balance) => Register(s, id, name, Some(key), balance)
    case CreateProject(owner, name, key) => NewProject(s, owner, name, key).state
    case TransferTokens(from, to, amount, memo) => TransferBetween(s, from, to, amount, memo).state
    case FundProject(owner, p, amount) => Fund(s, owner, p, amount).state
    case DonateToProject(supporter, p, amount) => Donate(s, supporter, p, amount).state
    case SubmitTask(owner, p, reward, payload) => NewTask(s, owner, p, reward, payload).state
    case RequestTask(w, _) => Request(s, w).state
    case SubmitResult(w, t, digest, cost, blob) => Submit(s, w, t, digest, cost, blob).state
    case Tick(n) => Advance(s, n)
  }

  function ApplyAll(s: NetState, ops: seq<LedgerOp>): NetState {
    if ops == [] then s else Apply(ApplyAll(s, ops[..|ops|-1]), ops[|ops|-1])
  }

  lemma {:induction false} ApplyAllConcat(s: NetState, a: seq<LedgerOp>, b: seq<LedgerOp>)
    ensures ApplyAll(s, a + b) == ApplyAll(ApplyAll(s, a), b)
  {
    if b == [] {
      assert a + b == a;
    } else {
      assert (a + b)[..|a + b|-1] == a + b[..|b|-1];
      ApplyAllConcat(s, a, b[..|b|-1]);
    }
  }

  /** Did the operation take effect, or was its error discarded? */
  predicate Succeeds(s: NetState, op: LedgerOp) {
    match op
    case RegisterParticipant(_, _, _, _) => true
    case CreateProject(owner, name, key) => NewProject(s, owner, name, key).out.Ok?
    case TransferTokens(from, to, amount, memo) => TransferBetween(s, from, to, amount, memo).out.Ok?
    case FundProject(owner, p, amount) => Fund(s, owner, p, amount).out.Ok?
    case DonateToProject(supporter, p, amount) => Donate(s, supporter, p, amount).out.Ok?
    case SubmitTask(owner, p, reward, payload) => NewTask(s, owner, p, reward, payload).out.Ok?
    case RequestTask(w, _) => Request(s, w).out.Ok?
    case SubmitResult(w, t, digest, cost, blob) => Submit(s, w, t, digest, cost, blob).out.Ok?
    case Tick(_) => true
  }
}
