/** `Executor::process_next_task` of `src/executor.rs`: the race between a
    worker's compute loop and the lease clock. Running the payload and
    encrypting its output are parameters. */
module ExecutorLoop {
  import opened Words
  import opened Sequences
  import opened Ledger
  import opened Model
  import opened NetworkSpec
  import opened TaskInvariants
  import opened QuotaInvariants
  import opened Replica

  datatype Computed = Computed(digest: string, stdout: string, actualCost: u64)

  datatype Executor = Executor(
    workerId: ParticipantId, tag: string, computeTicks: u64, heartbeatInterval: u64,
    execute: (TaskId, string, u64) -> Computed, encrypt: (Key, string) -> Blob)

  datatype Event =
    | Idle
    | ProcessedTask(workerId: ParticipantId, workerLabel: string, taskId: TaskId, projectId: ProjectId,
                    consensusReached: bool, leaseLost: bool, reward: u64, resultDigest: string, actualCost: u64)

  predicate HeartbeatDue(ex: Executor, elapsed: nat) {
    ex.heartbeatInterval > 0 && elapsed % ex.heartbeatInterval == 0 && elapsed < ex.computeTicks
  }

  /** The loop, from the given number of elapsed ticks on. */
  function Compute(s: NetState, ex: Executor, t: TaskId, elapsed: nat): Step<()>
    requires elapsed <= ex.computeTicks
    decreases ex.computeTicks - elapsed
  {
    if elapsed == ex.computeTicks then Step(s, Ok(()))
    else
      var s1 := Advance(s, 1);
      if !HeartbeatDue(ex, elapsed + 1) then Compute(s1, ex, t, elapsed + 1)
      else
        var beat := Heartbeat(s1, ex.workerId, t);
        if beat.out.Err? then beat else Compute(beat.state, ex, t, elapsed + 1)
  }

  function Lost(ex: Executor, task: Task, digest: string, cost: u64): Event {
    ProcessedTask(ex.workerId, ex.tag, task.id, task.projectId, false, true, 0, digest, cost)
  }

  function Deliver(s: NetState, ex: Executor, task: Task): Step<Event> {
    var computed := ex.execute(task.id, task.payload, task.reward);
    var blob := Sealed(s, ex, task, computed.stdout);
    var r := Submit(s, ex.workerId, task.id, computed.digest, computed.actualCost, blob);
    match r.out
    case Ok(done) =>
      Step(r.state, Ok(ProcessedTask(ex.workerId, ex.tag, task.id, task.projectId, done, false,
                                     task.reward, computed.digest, computed.actualCost)))
    case Err(e) =>
      if e.TaskNotAssignedToWorker? then Step(r.state, Ok(Lost(ex, task, computed.digest, computed.actualCost)))
      else Step(r.state, Err(e))
  }

  function Sealed(s: NetState, ex: Executor, task: Task, stdout: string): Option<Blob> {
    if task.projectId in s.projects && s.projects[task.projectId].ownerEncryptionKey.Some?
    then Some(ex.encrypt(s.projects[task.projectId].ownerEncryptionKey.value, stdout))
    else None
  }

  /** `process_next_task` */
  function Process(s: NetState, ex: Executor): Step<Event> {
    var asked := Request(s, ex.workerId);
    match asked.out
    case Err(e) => Step(asked.state, if e.NoPendingTasks? then Ok(Idle) else Err(e))
    case Ok(task) =>
      var r := Compute(asked.state, ex, task.id, 0);
      match r.out
      case Err(e) =>
        if e.TaskNotAssignedToWorker? then Step(r.state, Ok(Lost(ex, task, "lease-lost", 0)))
        else Step(r.state, Err(e))
      case Ok(_) => Deliver(r.state, ex, task)
  }

  // ------------------------------------------------------------ the lease clock

  /** The worker holds the task's lease until tick `expires`. */
  ghost predicate Holds(s: NetState, w: ParticipantId, t: TaskId, expires: int) {
    && Consistent(s) && w in s.participants
    && t in s.leases && s.leases[t].workerId == w && s.leases[t].expiresAt == expires
  }

  ghost predicate Dropped(s: NetState, w: ParticipantId, t: TaskId) {
    Consistent(s) && w in s.participants && t !in s.leases
  }

  lemma ReclaimLeases(s: NetState, t: TaskId)
    ensures t in Reclaim(s).leases <==> t in s.leases && s.leases[t].expiresAt > s.now
    ensures t in Reclaim(s).leases ==> Reclaim(s).leases[t] == s.leases[t]
  {
    ExpiredIdsProperties(s);
    ReclaimAllLeases(s, ExpiredIds(s));
  }

  /** One tick: the lease survives exactly when its expiry lies beyond it. */
  lemma TickHolds(s: NetState, w: ParticipantId, t: TaskId, expires: int)
    requires Holds(s, w, t, expires)
    ensures Advance(s, 1).now == SatAdd(s.now, 1) && Advance(s, 1).config == s.config
    ensures expires > SatAdd(s.now, 1) ==> Holds(Advance(s, 1), w, t, expires)
    ensures expires <= SatAdd(s.now, 1) ==> Dropped(Advance(s, 1), w, t)
  {
    var s1 := s.(now := SatAdd(s.now, 1));
    AdvanceConsistent(s, 1);
    ReclaimParticipants(s1);
    ReclaimLeases(s1, t);
  }

  lemma TickDropped(s: NetState, w: ParticipantId, t: TaskId)
    requires Dropped(s, w, t)
    ensures Dropped(Advance(s, 1), w, t)
  {
    var s1 := s.(now := SatAdd(s.now, 1));
    AdvanceConsistent(s, 1);
    ReclaimParticipants(s1);
    ReclaimLeases(s1, t);
  }

  lemma BeatHolds(s: NetState, w: ParticipantId, t: TaskId, expires: int)
    requires Holds(s, w, t, expires) && expires > s.now
    ensures var r := Heartbeat(s, w, t);
      && r.out.Ok? && r.state.now == s.now && r.state.config == s.config
      && Holds(r.state, w, t, Add(s.now, s.config.leaseTimeoutTicks))
  {
    HeartbeatConsistent(s, w, t);
    ReclaimConsistent(s);
    ReclaimParticipants(s);
    ReclaimLeases(s, t);
    assert Placed(Reclaim(s), t) || t !in Reclaim(s).tasks;
  }

  lemma BeatDropped(s: NetState, w: ParticipantId, t: TaskId)
    requires Dropped(s, w, t)
    ensures Heartbeat(s, w, t).out == Err(TaskNotAssignedToWorker(t, w))
  {
    ReclaimParticipants(s);
    ReclaimLeases(s, t);
  }

  // ------------------------------------------------------------------ the loop

  /** Ticks since the last renewal, after `elapsed` ticks of the loop. */
  function SinceRenewal(ex: Executor, elapsed: nat): (r: nat)
    ensures r <= elapsed
  {
    if ex.heartbeatInterval == 0 then elapsed
    else
      ModAtMost(elapsed, ex.heartbeatInterval);
      elapsed % ex.heartbeatInterval
  }

  /** The tick of the loop after which the lease was last renewed. */
  function Renewal(ex: Executor, elapsed: nat): nat {
    elapsed - SinceRenewal(ex, elapsed)
  }

  lemma NextSince(ex: Executor, elapsed: nat)
    requires elapsed + 1 < ex.computeTicks
    ensures SinceRenewal(ex, elapsed + 1) == if HeartbeatDue(ex, elapsed + 1) then 0 else SinceRenewal(ex, elapsed) + 1
  {
    if ex.heartbeatInterval > 0 {
      ModStep(elapsed, ex.heartbeatInterval);
    }
  }

  lemma ModStep(n: nat, k: nat)
    requires k > 0
    ensures (n + 1) % k == if (n + 1) % k == 0 then 0 else n % k + 1
  {
    var q, r := n / k, n % k;
    assert n == q * k + r;
    if r + 1 < k {
      Residue(n + 1, k, q, r + 1);
    } else {
      assert n + 1 == (q + 1) * k + 0 by { NextMultiple(q, k); }
      Residue(n + 1, k, q + 1, 0);
    }
  }

  /** What the clock shows so many ticks later: it stops at its last tick. */
  function ClockAt(start: u64, ticks: nat): u64 {
    if start + ticks < LIMIT then start + ticks else MAX
  }

  /** The tick after the `e`-th finds the lease due. Its expiry may have wrapped. */
  predicate TooLate(ex: Executor, start: u64, timeout: u64, e: nat) {
    Add(ClockAt(start, Renewal(ex, e)), timeout) <= ClockAt(start, e + 1)
  }

  ghost predicate Overruns(ex: Executor, start: u64, timeout: u64, elapsed: nat) {
    exists e :: elapsed <= e < ex.computeTicks && TooLate(ex, start, timeout, e)
  }

  /** The loop keeps the lease to its end unless some tick comes too late; and once
      one does, the lease is gone for good. */
  lemma {:induction false} ComputeOutcome(s: NetState, ex: Executor, t: TaskId, start: u64, elapsed: nat)
    requires elapsed < ex.computeTicks && s.now == ClockAt(start, elapsed)
    requires Holds(s, ex.workerId, t, Add(ClockAt(start, Renewal(ex, elapsed)), s.config.leaseTimeoutTicks))
    ensures var r := Compute(s, ex, t, elapsed);
      if Overruns(ex, start, s.config.leaseTimeoutTicks, elapsed)
      then r.out == Err(TaskNotAssignedToWorker(t, ex.workerId)) || (r.out.Ok? && Dropped(r.state, ex.workerId, t))
      else r.out.Ok? && exists expires :: Holds(r.state, ex.workerId, t, expires) && expires > r.state.now
    decreases ex.computeTicks - elapsed
  {
    hide Advance, Heartbeat, Consistent, SinceRenewal, Overruns;
    var L := s.config.leaseTimeoutTicks;
    var w := ex.workerId;
    var expires := Add(ClockAt(start, Renewal(ex, elapsed)), L);
    TickHolds(s, w, t, expires);
    var s1 := Advance(s, 1);
    if TooLate(ex, start, L, elapsed) {
      OverrunsNow(ex, start, L, elapsed);
      DroppedOutcome(s1, ex, t, elapsed);
    } else {
      assert Holds(s1, w, t, expires);
      OverrunsNext(ex, start, L, elapsed);
      if elapsed + 1 < ex.computeTicks {
        NextSince(ex, elapsed);
        if HeartbeatDue(ex, elapsed + 1) {
          BeatHolds(s1, w, t, expires);
          ComputeOutcome(Heartbeat(s1, w, t).state, ex, t, start, elapsed + 1);
        } else {
          ComputeOutcome(s1, ex, t, start, elapsed + 1);
        }
      } else {
        assert Compute(s1, ex, t, elapsed + 1) == Step(s1, Ok(()));
      }
    }
  }

  lemma OverrunsNow(ex: Executor, start: u64, timeout: u64, elapsed: nat)
    requires elapsed < ex.computeTicks && TooLate(ex, start, timeout, elapsed)
    ensures Overruns(ex, start, timeout, elapsed)
  {}

  lemma OverrunsNext(ex: Executor, start: u64, timeout: u64, elapsed: nat)
    requires !TooLate(ex, start, timeout, elapsed)
    ensures Overruns(ex, start, timeout, elapsed) <==> Overruns(ex, start, timeout, elapsed + 1)
    ensures elapsed + 1 >= ex.computeTicks ==> !Overruns(ex, start, timeout, elapsed)
  {
    hide TooLate;
    if Overruns(ex, start, timeout, elapsed) {
      var e :| elapsed <= e < ex.computeTicks && TooLate(ex, start, timeout, e);
      assert e != elapsed;
    }
  }

  /** After the tick that cost the lease. */
  lemma {:induction false} DroppedOutcome(s1: NetState, ex: Executor, t: TaskId, elapsed: nat)
    requires elapsed < ex.computeTicks && Dropped(s1, ex.workerId, t)
    ensures var r := if HeartbeatDue(ex, elapsed + 1)
                     then Heartbeat(s1, ex.workerId, t)
                     else Compute(s1, ex, t, elapsed + 1);
      r.out == Err(TaskNotAssignedToWorker(t, ex.workerId)) || (r.out.Ok? && Dropped(r.state, ex.workerId, t))
    ensures HeartbeatDue(ex, elapsed + 1) ==> Heartbeat(s1, ex.workerId, t).out.Err?
    decreases ex.computeTicks - elapsed
  {
    BeatDropped(s1, ex.workerId, t);
    if !HeartbeatDue(ex, elapsed + 1) && elapsed + 1 < ex.computeTicks {
      TickDropped(s1, ex.workerId, t);
      DroppedOutcome(Advance(s1, 1), ex, t, elapsed + 1);
    }
  }

  /** A tick comes too late exactly when it is a whole timeout after the renewal, or
      the expiry set at the renewal passed the end of the clock and wrapped. */
  lemma TooLateExactly(ex: Executor, start: u64, timeout: u64, e: nat)
    ensures TooLate(ex, start, timeout, e) <==>
      SinceRenewal(ex, e) + 1 >= timeout || start + Renewal(ex, e) + timeout >= LIMIT
  {
    hide SinceRenewal;
  }

  lemma {:induction false} RenewalsGrow(ex: Executor, e: nat, last: nat)
    requires e <= last
    ensures Renewal(ex, e) <= Renewal(ex, last)
    decreases last - e
  {
    if e < last {
      if ex.heartbeatInterval > 0 {
        ModStep(e, ex.heartbeatInterval);
      }
      RenewalsGrow(ex, e + 1, last);
    }
  }

  /** Some tick lies a whole timeout after its renewal exactly when the computation
      lasts a timeout and no heartbeat comes sooner. */
  lemma TimeoutsExactly(ex: Executor, timeout: u64)
    requires ex.computeTicks >= 1
    ensures (exists e :: 0 <= e < ex.computeTicks && SinceRenewal(ex, e) + 1 >= timeout) <==>
      ex.computeTicks >= timeout && (ex.heartbeatInterval == 0 || ex.heartbeatInterval >= timeout)
  {
    var c, k := ex.computeTicks, ex.heartbeatInterval;
    if c >= timeout && (k == 0 || k >= timeout) {
      var e := if timeout == 0 then 0 else timeout - 1;
      if k > 0 && timeout > 0 {
        SmallMod(e, k);
      }
      assert SinceRenewal(ex, e) + 1 >= timeout;
    }
    if e :| 0 <= e < c && SinceRenewal(ex, e) + 1 >= timeout {
      if k > 0 {
        ModAtMost(e, k);
      }
    }
  }

  /** When some tick of the whole loop comes too late, in closed form. */
  lemma OverrunsExactly(ex: Executor, start: u64, timeout: u64)
    requires ex.computeTicks >= 1
    ensures Overruns(ex, start, timeout, 0) <==> LosesLease(ex, start, timeout)
  {
    hide SinceRenewal, TooLate;
    var last := ex.computeTicks - 1;
    TimeoutsExactly(ex, timeout);
    forall e | 0 <= e < ex.computeTicks
      ensures TooLate(ex, start, timeout, e) <==>
        SinceRenewal(ex, e) + 1 >= timeout || start + Renewal(ex, e) + timeout >= LIMIT
      ensures Renewal(ex, e) <= Renewal(ex, last)
    {
      TooLateExactly(ex, start, timeout, e);
      RenewalsGrow(ex, e, last);
    }
    if Overruns(ex, start, timeout, 0) {
      var e :| 0 <= e < ex.computeTicks && TooLate(ex, start, timeout, e);
    } else {
      assert forall e :: 0 <= e < ex.computeTicks ==> !TooLate(ex, start, timeout, e);
      assert !TooLate(ex, start, timeout, last);
    }
  }

  /** The computation lasts a whole timeout and no heartbeat comes sooner than that;
      or the expiry set at its last renewal passes the end of the clock. */
  predicate LosesLease(ex: Executor, start: u64, timeout: u64)
    requires ex.computeTicks >= 1
  {
    || (ex.computeTicks >= timeout && (ex.heartbeatInterval == 0 || ex.heartbeatInterval >= timeout))
    || start + Renewal(ex, ex.computeTicks - 1) + timeout >= LIMIT
  }

  lemma SmallMod(n: nat, k: nat)
    requires n < k
    ensures n % k == n
  {}

  lemma ModAtMost(n: nat, k: nat)
    requires k > 0
    ensures n % k <= n && n % k < k
  {
    var q := n / k;
    assert n == q * k + n % k;
    assert q * k >= 0;
  }

  /** A worker that gets a task, at whatever time, loses its lease exactly when
      `LosesLease` says so beforehand. */
  lemma LeaseLostExactly(s: NetState, ex: Executor)
    requires Consistent(s) && Request(s, ex.workerId).out.Ok? && ex.computeTicks >= 1
    ensures var r := Process(s, ex);
      && r.out.Ok? && r.out.value.ProcessedTask?
      && (r.out.value.leaseLost <==> LosesLease(ex, s.now, s.config.leaseTimeoutTicks))
  {
    hide Consistent, Request, Compute, Deliver, Overruns, LosesLease;
    var w := ex.workerId;
    var task := AssignedTask(s, w);
    var s1 := Request(s, w).state;
    ZeroSince(ex);
    assert s.now == ClockAt(s.now, 0);
    ComputeOutcome(s1, ex, task.id, s.now, 0);
    OverrunsExactly(ex, s.now, s.config.leaseTimeoutTicks);
    var r := Compute(s1, ex, task.id, 0);
    if r.out.Ok? {
      DeliverOutcome(r.state, ex, task);
    }
  }

  lemma ZeroSince(ex: Executor)
    ensures SinceRenewal(ex, 0) == 0
  {
    if ex.heartbeatInterval > 0 {
      SmallMod(0, ex.heartbeatInterval);
    }
  }

  lemma AssignedTask(s: NetState, w: ParticipantId) returns (task: Task)
    requires Consistent(s) && Request(s, w).out.Ok?
    ensures task == Request(s, w).out.value
    ensures var r := Request(s, w).state;
      r.now == s.now && r.config == s.config && Holds(r, w, task.id, Add(s.now, s.config.leaseTimeoutTicks))
  {
    task := Request(s, w).out.value;
    RequestConsistent(s, w);
    ReclaimConsistent(s);
    ReclaimParticipants(s);
    var s1 := Reclaim(s);
    BestTaskIsBest(s1, w, s1.pending);
    var t := BestTask(s1, w, s1.pending).value;
    AssignConsistent(s1, w, t);
    assert Sound(s1, t);
  }

  /** Delivering succeeds exactly when the lease is still held. */
  lemma DeliverOutcome(s: NetState, ex: Executor, task: Task)
    requires Consistent(s) && ex.workerId in s.participants
    requires task.id in s.leases ==> s.leases[task.id].workerId == ex.workerId && s.leases[task.id].expiresAt > s.now
    ensures var r := Deliver(s, ex, task);
      && r.out.Ok? && r.out.value.ProcessedTask?
      && (r.out.value.leaseLost <==> task.id !in s.leases)
  {
    var t := task.id;
    ReclaimLeases(s, t);
    ReclaimConsistent(s);
    var s1 := Reclaim(s);
    if t in s.leases {
      assert Placed(s1, t) || t !in s1.tasks;
      var computed := ex.execute(t, task.payload, task.reward);
      var blob := Sealed(s, ex, task, computed.stdout);
      var report := TaskReport(ex.workerId, computed.digest, computed.actualCost, blob);
      ReportLimbo(s1, ex.workerId, t, report);
      ConcludeConsistent(Report(s1, ex.workerId, t, report), t);
    }
  }

  // ----------------------------------------------------------------- in place

  method ProcessNextTask(ex: Executor, network: Network) returns (r: Outcome<Event>)
    requires network.Valid()
    modifies network, network.blockchain
    ensures network.Valid() && Step(network.State(), r) == Process(old(network.State()), ex)
  {
    var w := ex.workerId;
    var asked := network.RequestTask(w);
    if asked.Err? {
      return if asked.error.NoPendingTasks? then Ok(Idle) else Err(asked.error);
    }
    var task := asked.value;
    ghost var start := network.State();
    for elapsed := 0 to ex.computeTicks
      invariant network.Valid()
      invariant Compute(network.State(), ex, task.id, elapsed) == Compute(start, ex, task.id, 0)
    {
      network.Tick(1);
      if HeartbeatDue(ex, elapsed + 1) {
        var beat := network.SendHeartbeat(w, task.id);
        if beat.Err? {
          return if beat.error.TaskNotAssignedToWorker? then Ok(Lost(ex, task, "lease-lost", 0)) else Err(beat.error);
        }
      }
    }
    var computed := ex.execute(task.id, task.payload, task.reward);
    var blob: Option<Blob> := None;
    if task.projectId in network.projects && network.projects[task.projectId].ownerEncryptionKey.Some? {
      blob := Some(ex.encrypt(network.projects[task.projectId].ownerEncryptionKey.value, computed.stdout));
    }
    var done := network.SubmitResult(w, task.id, computed.digest, computed.actualCost, blob);
    if done.Err? {
      return if done.error.TaskNotAssignedToWorker?
             then Ok(Lost(ex, task, computed.digest, computed.actualCost)) else Err(done.error);
    }
    return Ok(ProcessedTask(w, ex.tag, task.id, task.projectId, done.value, false,
                            task.reward, computed.digest, computed.actualCost));
  }
}
