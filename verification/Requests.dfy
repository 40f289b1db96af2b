/** Which task a worker is given: in terms of quotas and ids alone. */
module Requests {
  import opened Words
  import opened Model
  import opened NetworkSpec
  import opened TaskInvariants
  import opened TaskOutcomes
  import opened ExecutorLoop

  /** The task is free, or the lease on it is due, and the worker has not reported. */
  ghost predicate Waits(s: NetState, u: TaskId, w: ParticipantId) {
    && u in s.tasks
    && (s.tasks[u].status.Pending? || (s.tasks[u].status.Assigned? && s.tasks[u].status.leaseExpiresAt <= s.now))
    && forall i :: 0 <= i < |s.tasks[u].reports| ==> s.tasks[u].reports[i].workerId != w
  }

  /** What the task's project has, available or locked. */
  function Means(s: NetState, u: TaskId): u64
    requires u in s.tasks && s.tasks[u].projectId in s.projects
  {
    var project := s.projects[s.tasks[u].projectId];
    Add(project.quotaAvailable, project.quotaLocked)
  }

  lemma ReclaimTaskExactly(s: NetState, u: TaskId)
    requires Consistent(s) && u in s.tasks
    ensures u in Reclaim(s).tasks
    ensures Reclaim(s).tasks[u] ==
      if s.tasks[u].status.Assigned? && s.tasks[u].status.leaseExpiresAt <= s.now
      then s.tasks[u].(status := Pending) else s.tasks[u]
  {
    hide Reclaim;
    ReclaimTasks(s);
    ReclaimConsistent(s);
    ReclaimLeases(s, u);
    assert Placed(s, u) && Placed(Reclaim(s), u);
  }

  lemma WaitsIsCanTake(s: NetState, u: TaskId, w: ParticipantId)
    requires Consistent(s)
    ensures Waits(s, u, w) <==> CanTake(Reclaim(s), w, u)
    ensures Waits(s, u, w) ==> u in Reclaim(s).pending
  {
    hide Reclaim;
    ReclaimTasks(s);
    ReclaimConsistent(s);
    if u in s.tasks {
      ReclaimTaskExactly(s, u);
      assert Placed(Reclaim(s), u);
    }
  }

  lemma ProjectKnown(s: NetState, u: TaskId)
    requires Consistent(s) && u in s.tasks
    ensures s.tasks[u].projectId in s.projects
  {
    assert Sound(s, u);
  }

  /** A known worker is turned away exactly when nothing waits for it; otherwise it is
      given a waiting task of a project with the most means, and among equals the
      oldest. */
  lemma RequestServesBest(s: NetState, w: ParticipantId)
    requires Consistent(s)
    ensures w !in s.participants ==> Request(s, w) == Step(s, Err(ParticipantNotFound(w)))
    ensures w in s.participants ==>
      if exists u :: Waits(s, u, w) then Request(s, w).out.Ok? else Request(s, w).out == Err(NoPendingTasks)
    ensures Request(s, w).out.Ok? ==>
      var task := Request(s, w).out.value; var t := task.id; var r := Request(s, w).state;
      var expires := Add(s.now, s.config.leaseTimeoutTicks);
      && Waits(s, t, w) && s.tasks[t].projectId in s.projects
      && task == s.tasks[t].(status := Assigned(w, expires))
      && t in r.tasks && r.tasks[t] == task && t in r.leases && r.leases[t] == Lease(w, expires)
      && forall u :: Waits(s, u, w) ==>
           && s.tasks[u].projectId in s.projects
           && Means(s, u) <= Means(s, t) && (Means(s, u) == Means(s, t) ==> t <= u)
  {
    hide Reclaim, Placed;
    if w in s.participants {
      ReclaimConsistent(s);
      ReclaimParticipants(s);
      var s1 := Reclaim(s);
      BestTaskIsBest(s1, w, s1.pending);
      forall u ensures Waits(s, u, w) <==> CanTake(s1, w, u) && u in s1.pending {
        WaitsIsCanTake(s, u, w);
      }
      if BestTask(s1, w, s1.pending).Some? {
        var t := BestTask(s1, w, s1.pending).value;
        assert Waits(s, t, w);
        ReclaimTaskExactly(s, t);
        ProjectKnown(s, t);
        assert Sound(s, t);
        forall u | Waits(s, u, w)
          ensures s.tasks[u].projectId in s.projects
          ensures Means(s, u) <= Means(s, t) && (Means(s, u) == Means(s, t) ==> t <= u)
        {
          ProjectKnown(s, u);
          ReclaimTaskExactly(s, u);
        }
      } else {
        forall u ensures !Waits(s, u, w) {
          assert u in s1.pending ==> !CanTake(s1, w, u);
        }
      }
    }
  }

  /** A heartbeat renews exactly the caller's own undue lease. */
  lemma HeartbeatExactly(s: NetState, w: ParticipantId, t: TaskId)
    requires Consistent(s)
    ensures var r := Heartbeat(s, w, t);
      if w !in s.participants then r == Step(s, Err(ParticipantNotFound(w)))
      else if t in s.leases && s.leases[t].workerId == w && s.leases[t].expiresAt > s.now then
        var expires := Add(s.now, s.config.leaseTimeoutTicks);
        && r.out == Ok(()) && t in r.state.leases && r.state.leases[t] == Lease(w, expires)
        && t in r.state.tasks && t in s.tasks && r.state.tasks[t] == s.tasks[t].(status := Assigned(w, expires))
      else r.out == Err(TaskNotAssignedToWorker(t, w))
  {
    hide Reclaim;
    if w in s.participants {
      ReclaimLeases(s, t);
      ReclaimParticipants(s);
      if t in s.leases {
        assert Placed(s, t);
        ReclaimTaskExactly(s, t);
      }
    }
  }
}
