/** What a worker's turn comes to: which event is reported, and what is recorded. */
module Workers {
  import opened Words
  import opened Sequences
  import opened Model
  import opened NetworkSpec
  import opened TaskInvariants
  import opened TaskOutcomes
  import opened ExecutorLoop
  import opened Requests
  import opened Verdicts

  /** The same tasks and projects, up to the status of tasks. */
  ghost predicate SameWork(s: NetState, r: NetState) {
    && r.projects == s.projects && r.tasks.Keys == s.tasks.Keys
    && forall u :: u in s.tasks ==> r.tasks[u] == s.tasks[u].(status := r.tasks[u].status)
  }

  lemma SameWorkOn(s: NetState, m: NetState, r: NetState)
    requires SameWork(s, m) && SameWork(m, r)
    ensures SameWork(s, r)
  {}

  lemma ReclaimSameWork(s: NetState)
    ensures SameWork(s, Reclaim(s))
  {
    hide Reclaim;
    ReclaimProjects(s);
    ReclaimTasks(s);
  }

  lemma BeatSameWork(s: NetState, w: ParticipantId, t: TaskId)
    ensures SameWork(s, Heartbeat(s, w, t).state)
  {
    hide Reclaim;
    ReclaimSameWork(s);
  }

  lemma {:induction false} ComputeSameWork(s: NetState, ex: Executor, t: TaskId, elapsed: nat)
    requires elapsed <= ex.computeTicks
    ensures SameWork(s, Compute(s, ex, t, elapsed).state)
    decreases ex.computeTicks - elapsed
  {
    hide Reclaim, Heartbeat, SameWork;
    if elapsed == ex.computeTicks {
      Unworked(s, s);
    } else {
      var later := s.(now := SatAdd(s.now, 1));
      var s1 := Advance(s, 1);
      Unworked(s, later);
      ReclaimSameWork(later);
      SameWorkOn(s, later, s1);
      if !HeartbeatDue(ex, elapsed + 1) {
        ComputeSameWork(s1, ex, t, elapsed + 1);
        SameWorkOn(s, s1, Compute(s, ex, t, elapsed).state);
      } else {
        BeatSameWork(s1, ex.workerId, t);
        var s2 := Heartbeat(s1, ex.workerId, t).state;
        SameWorkOn(s, s1, s2);
        ComputeSameWork(s2, ex, t, elapsed + 1);
        if Heartbeat(s1, ex.workerId, t).out.Ok? {
          SameWorkOn(s, s2, Compute(s, ex, t, elapsed).state);
        }
      }
    }
  }

  lemma Unworked(s: NetState, r: NetState)
    requires r.projects == s.projects && r.tasks == s.tasks
    ensures SameWork(s, r)
  {}

  lemma RequestSameWork(s: NetState, w: ParticipantId)
    requires Consistent(s)
    ensures SameWork(s, Request(s, w).state)
  {
    hide Reclaim, BestTask, Without;
    ReclaimSameWork(s);
    ReclaimConsistent(s);
    RequestKeepsTaskIds(s, w);
  }

  // ----------------------------------------------------------------- losing the lease

  /** Some heartbeat comes after a tick that was too late. */
  ghost predicate Noticed(ex: Executor, start: u64, timeout: u64, elapsed: nat) {
    exists e, beat :: elapsed <= e < beat && TooLate(ex, start, timeout, e) && HeartbeatDue(ex, beat)
  }

  lemma {:induction false} DroppedErr(s: NetState, ex: Executor, t: TaskId, elapsed: nat)
    requires elapsed <= ex.computeTicks && Dropped(s, ex.workerId, t)
    ensures Compute(s, ex, t, elapsed).out.Err? <==> exists beat :: elapsed < beat && HeartbeatDue(ex, beat)
    decreases ex.computeTicks - elapsed
  {
    hide Advance, Heartbeat, Consistent, HeartbeatDue;
    if elapsed < ex.computeTicks {
      TickDropped(s, ex.workerId, t);
      var s1 := Advance(s, 1);
      BeatDropped(s1, ex.workerId, t);
      if !HeartbeatDue(ex, elapsed + 1) {
        DroppedErr(s1, ex, t, elapsed + 1);
      }
    } else {
      NoLateBeats(ex, elapsed);
    }
  }

  lemma LastTickSilent(ex: Executor, elapsed: nat)
    requires elapsed >= ex.computeTicks
    ensures !HeartbeatDue(ex, elapsed)
  {}

  lemma NoLateBeats(ex: Executor, elapsed: nat)
    requires elapsed >= ex.computeTicks
    ensures forall beat :: elapsed < beat ==> !HeartbeatDue(ex, beat)
  {}

  /** The loop itself finds out about a lost lease exactly if a heartbeat is still to
      come; otherwise the submission does. */
  lemma {:induction false} NoticedExactly(s: NetState, ex: Executor, t: TaskId, start: u64, elapsed: nat)
    requires elapsed < ex.computeTicks && s.now == ClockAt(start, elapsed)
    requires Holds(s, ex.workerId, t, Add(ClockAt(start, Renewal(ex, elapsed)), s.config.leaseTimeoutTicks))
    ensures Compute(s, ex, t, elapsed).out.Err? <==> Noticed(ex, start, s.config.leaseTimeoutTicks, elapsed)
    decreases ex.computeTicks - elapsed
  {
    hide Advance, Heartbeat, Consistent, SinceRenewal, HeartbeatDue;
    var L := s.config.leaseTimeoutTicks;
    var w := ex.workerId;
    var expires := Add(ClockAt(start, Renewal(ex, elapsed)), L);
    TickHolds(s, w, t, expires);
    var s1 := Advance(s, 1);
    if TooLate(ex, start, L, elapsed) {
      BeatDropped(s1, w, t);
      DroppedErr(s1, ex, t, elapsed + 1);
      assert Noticed(ex, start, L, elapsed) <==> exists beat :: elapsed < beat && HeartbeatDue(ex, beat);
    } else {
      NoticedNext(ex, start, L, elapsed);
      if elapsed + 1 < ex.computeTicks {
        NextSince(ex, elapsed);
        if HeartbeatDue(ex, elapsed + 1) {
          BeatHolds(s1, w, t, expires);
          NoticedExactly(Heartbeat(s1, w, t).state, ex, t, start, elapsed + 1);
        } else {
          NoticedExactly(s1, ex, t, start, elapsed + 1);
        }
      } else {
        NoLateBeats(ex, elapsed + 1);
        assert !HeartbeatDue(ex, elapsed + 1) by { LastTickSilent(ex, elapsed + 1); }
        assert Compute(s, ex, t, elapsed) == Step(s1, Ok(()));
        assert !Noticed(ex, start, L, elapsed + 1);
      }
    }
  }

  lemma NoticedNext(ex: Executor, start: u64, timeout: u64, elapsed: nat)
    requires !TooLate(ex, start, timeout, elapsed)
    ensures Noticed(ex, start, timeout, elapsed) <==> Noticed(ex, start, timeout, elapsed + 1)
  {
    hide TooLate, HeartbeatDue;
    if Noticed(ex, start, timeout, elapsed) {
      var e, beat :| elapsed <= e < beat && TooLate(ex, start, timeout, e) && HeartbeatDue(ex, beat);
      assert e != elapsed;
    }
  }

  // ------------------------------------------------------------------- the whole turn

  /** The output is encrypted for the owner's key, if the project has one. */
  function ForOwner(s: NetState, ex: Executor, task: Task, stdout: string): Option<Blob>
    requires task.projectId in s.projects
  {
    match s.projects[task.projectId].ownerEncryptionKey
    case Some(key) => Some(ex.encrypt(key, stdout))
    case None => None
  }

  lemma SameReports(s: NetState, r: NetState, t: TaskId)
    requires SameWork(s, r) && t in s.tasks
    ensures t in r.tasks && r.tasks[t].reports == s.tasks[t].reports && r.projects == s.projects
  {}

  /** Delivering to a state in which the worker holds the lease, or nobody does. */
  lemma DeliveredExactly(s: NetState, m: NetState, ex: Executor, task: Task)
    requires SameWork(s, m) && Consistent(m) && ex.workerId in m.participants
    requires task.id in s.tasks && task.projectId in s.projects
    requires task.id in m.leases ==> m.leases[task.id].workerId == ex.workerId && m.leases[task.id].expiresAt > m.now
    ensures var t := task.id; var r := Deliver(m, ex, task);
      var computed := ex.execute(t, task.payload, task.reward);
      && r.out.Ok? && r.out.value.ProcessedTask? && t in r.state.tasks
      && var event := r.out.value;
      && event == ProcessedTask(ex.workerId, ex.tag, t, task.projectId, event.consensusReached, task.id !in m.leases,
                                if event.leaseLost then 0 else task.reward, computed.digest, computed.actualCost)
      && (event.leaseLost ==> !event.consensusReached && r.state.tasks[t].reports == s.tasks[t].reports)
      && (!event.leaseLost ==>
            && r.state.tasks[t].reports == s.tasks[t].reports
                 + [TaskReport(ex.workerId, computed.digest, computed.actualCost,
                   ForOwner(s, ex, task, computed.stdout))]
            && (event.consensusReached <==> !r.state.tasks[t].status.Open()))
  {
    hide Submit, Consistent, Reclaim, SlotUsed, OthersKept, SameWork;
    var t := task.id;
    var computed := ex.execute(t, task.payload, task.reward);
    var blob := ForOwner(s, ex, task, computed.stdout);
    assert Sealed(m, ex, task, computed.stdout) == blob by { SameReports(s, m, t); }
    SameReports(s, m, t);
    DeliverOutcome(m, ex, task);
    var r := Submit(m, ex.workerId, t, computed.digest, computed.actualCost, blob);
    if r.out.Ok? {
      AcceptedReportUsesSlot(m, ex.workerId, t, computed.digest, computed.actualCost, blob);
      SlotSays(m, r.state, t, TaskReport(ex.workerId, computed.digest, computed.actualCost, blob), r.out.value);
    } else {
      SubmitConsistent(m, ex.workerId, t, computed.digest, computed.actualCost, blob);
      ReclaimSameWork(m);
      SameReports(m, r.state, t);
    }
  }

  lemma SlotSays(s: NetState, r: NetState, t: TaskId, report: TaskReport, done: bool)
    requires SlotUsed(s, r, t, report, done)
    ensures t in s.tasks && t in r.tasks && r.tasks[t].reports == s.tasks[t].reports + [report]
    ensures done <==> !r.tasks[t].status.Open()
  {}

  /** A turn is refused to strangers and idle exactly when no task waits for the worker;
      otherwise it is about the task the worker was given. */
  lemma IdleExactly(s: NetState, ex: Executor)
    requires Consistent(s) && ex.computeTicks >= 1
    ensures var r := Process(s, ex).out;
      if ex.workerId !in s.participants then r == Err(ParticipantNotFound(ex.workerId))
      else if exists u :: Waits(s, u, ex.workerId) then r.Ok? && r.value.ProcessedTask?
      else r == Ok(Idle)
  {
    hide Request, Compute, Deliver, Waits, Consistent;
    RequestServesBest(s, ex.workerId);
    if Request(s, ex.workerId).out.Ok? {
      LeaseLostExactly(s, ex);
    }
  }

  /** Without losing the lease the worker reports what running the task's payload within
      its reward gives, and exactly that is recorded; if the lease is lost nothing is, and
      the event says whether the loop or the submission found out. */
  lemma TurnExactly(s: NetState, ex: Executor)
    requires Consistent(s) && Request(s, ex.workerId).out.Ok? && ex.computeTicks >= 1
    ensures var task := Request(s, ex.workerId).out.value; var t := task.id;
      var computed := ex.execute(t, task.payload, task.reward);
      var r := Process(s, ex);
      && t in s.tasks && task.payload == s.tasks[t].payload && task.reward == s.tasks[t].reward
      && task.projectId in s.projects && t in r.state.tasks
      && r.out.Ok? && r.out.value.ProcessedTask?
      && var event := r.out.value;
      && event.workerId == ex.workerId && event.workerLabel == ex.tag
      && event.taskId == t && event.projectId == s.tasks[t].projectId
      && if event.leaseLost then
           && !event.consensusReached && event.reward == 0
           && r.state.tasks[t].reports == s.tasks[t].reports
           && if Noticed(ex, s.now, s.config.leaseTimeoutTicks, 0)
              then event.resultDigest == "lease-lost" && event.actualCost == 0
              else event.resultDigest == computed.digest && event.actualCost == computed.actualCost
         else
           && event.resultDigest == computed.digest && event.actualCost == computed.actualCost
           && event.reward == s.tasks[t].reward
           && r.state.tasks[t].reports == s.tasks[t].reports
                + [TaskReport(ex.workerId, computed.digest, computed.actualCost,
                  ForOwner(s, ex, task, computed.stdout))]
           && (event.consensusReached <==> !r.state.tasks[t].status.Open())
  {
    hide Request, Compute, Consistent, SameWork, Noticed, Overruns, LosesLease, Deliver;
    var w := ex.workerId;
    RequestServesBest(s, w);
    var task := AssignedTask(s, w);
    var s1 := Request(s, w).state;
    RequestSameWork(s, w);
    ZeroSince(ex);
    NoticedExactly(s1, ex, task.id, s.now, 0);
    ComputeOutcome(s1, ex, task.id, s.now, 0);
    LeaseLostExactly(s, ex);
    ComputeSameWork(s1, ex, task.id, 0);
    var m := Compute(s1, ex, task.id, 0);
    SameWorkOn(s, s1, m.state);
    SameReports(s, m.state, task.id);
    if m.out.Ok? {
      DeliveredExactly(s, m.state, ex, task);
    }
  }
}
