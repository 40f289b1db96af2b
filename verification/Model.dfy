/** Entities of `src/model.rs`, the replicated operations of `src/ops.rs` and
    the errors of `src/network.rs`. Identifiers and counters are unbounded;
    token amounts, ticks, weights and reputations are 64-bit. */
module Model {
  import opened Words
  import opened Sequences
  import opened Ledger

  type ParticipantId = nat
  type ProjectId = nat
  type TaskId = nat
  type Blob = seq<bv8>

  const PROJECT_ID_OFFSET: nat := 1_000_000_000

  function ProjectAddress(p: ProjectId): Address {
    p + PROJECT_ID_OFFSET
  }

  datatype Participant = Participant(id: ParticipantId, name: string, reputation: u64, publicKey: Option<Key>)

  datatype Project = Project(
    id: ProjectId, ownerId: ParticipantId, name: string,
    quotaAvailable: u64, quotaLocked: u64, ownerEncryptionKey: Option<Key>)
  {
    function PriorityScore(): u64 {
      Add(quotaAvailable, quotaLocked)
    }
  }

  datatype TaskStatus =
    | Pending
    | Assigned(workerId: ParticipantId, leaseExpiresAt: u64)
    | Completed(acceptedDigest: string, rewardedWorkers: seq<ParticipantId>)
    | QuotaExhausted(acceptedDigest: string, reportingWorkers: seq<ParticipantId>)
    | Rejected
  {
    /** Not yet settled: its reward is still locked. */
    predicate Open() {
      Pending? || Assigned?
    }
  }

  datatype TaskReport = TaskReport(
    workerId: ParticipantId, resultDigest: string, actualCost: u64, encryptedResult: Option<Blob>)

  datatype Task = Task(
    id: TaskId, projectId: ProjectId, reward: u64, payload: string,
    weightRequired: u64, maxReports: nat, reports: seq<TaskReport>,
    status: TaskStatus, encryptedResult: Option<Blob>)

  datatype Lease = Lease(workerId: ParticipantId, expiresAt: u64)

  datatype Config = Config(
    leaseTimeoutTicks: u64, consensusQuorum: u64, maxReportsPerTask: nat,
    leaseSlash: u64, reputationReward: u64, reputationPenalty: u64)

  const DEFAULT_CONFIG := Config(3, 2, 5, 1, 1, 1)

  datatype NetworkError =
    | ParticipantNotFound(participant: ParticipantId)
    | ProjectNotFound(project: ProjectId)
    | TaskNotFound(task: TaskId)
    | NotEnoughBalance(participant: ParticipantId, requested: u64, available: u64)
    | NotEnoughProjectQuota(project: ProjectId, requested: u64, available: u64)
    | NotTaskOwner(participant: ParticipantId, project: ProjectId)
    | TaskNotAssignedToWorker(task: TaskId, worker: ParticipantId)
    | NoPendingTasks

  datatype Outcome<+T> = Ok(value: T) | Err(error: NetworkError)

  datatype LedgerOp =
    | RegisterParticipant(id: ParticipantId, name: string, publicKey: Key, initialBalance: u64)
    | CreateProject(ownerId: ParticipantId, name: string, ownerEncryptionKey: Option<Key>)
    | TransferTokens(from: ParticipantId, to: ParticipantId, amount: u64, memo: string)
    | FundProject(ownerId: ParticipantId, projectId: ProjectId, amount: u64)
    | DonateToProject(supporterId: ParticipantId, projectId: ProjectId, amount: u64)
    | SubmitTask(ownerId: ParticipantId, projectId: ProjectId, reward: u64, payload: string)
    | RequestTask(workerId: ParticipantId, nonce: u64)
    | SubmitResult(workerId: ParticipantId, taskId: TaskId, resultDigest: string, actualCost: u64,
        encryptedResult: Option<Blob>)
    | Tick(n: u64)

  /** `digest.contains("-budget-exhausted-")` */
  predicate IsBudgetExhausted(digest: string) {
    Contains(digest, "-budget-exhausted-")
  }

  predicate Contains(s: string, pattern: string) {
    exists i :: 0 <= i <= |s| && pattern <= s[i..]
  }

  /** Decimal rendering, as in the ledger memos. */
  function Decimal(n: nat): string {
    if n < 10 then ["0123456789"[n]] else Decimal(n / 10) + ["0123456789"[n % 10]]
  }
}
