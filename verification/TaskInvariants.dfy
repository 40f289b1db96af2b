/** The three views of a task's progress (its status, the lease map and the
    queue of pending ids) agree in every reachable state, whatever the
    operations and without any assumption on amounts. */
module TaskInvariants {
  import opened Words
  import opened Sequences
  import opened Ledger
  import opened Model
  import opened Reward
  import opened NetworkSpec

  ghost predicate OneReportEach(task: Task) {
    forall i, j :: 0 <= i < j < |task.reports| ==> task.reports[i].workerId != task.reports[j].workerId
  }

  /** What holds of a task whatever its status. */
  ghost predicate Sound(s: NetState, t: TaskId)
    requires t in s.tasks
  {
    var task := s.tasks[t];
    && task.id == t && t < s.nextTask
    && task.projectId in s.projects
    && task.weightRequired == Max(s.config.consensusQuorum, 1)
    && task.maxReports == MaxReports(s.config)
    && |task.reports| <= task.maxReports
    && OneReportEach(task)
    && (forall i :: 0 <= i < |task.reports| ==> task.reports[i].workerId in s.participants)
  }

  /** Status, lease and queue agree on the task. */
  ghost predicate Placed(s: NetState, t: TaskId)
    requires t in s.tasks
  {
    var task := s.tasks[t];
    && (task.status.Open() ==> |task.reports| < task.maxReports)
    && match task.status
       case Pending => t !in s.leases && t in s.pending
       case Assigned(w, e) =>
         && t in s.leases && s.leases[t] == Lease(w, e) && t !in s.pending
         && w in s.participants && !Reported(task, w)
       case _ => t !in s.leases && t !in s.pending
  }

  ghost predicate Shape(s: NetState) {
    && s.leases.Keys <= s.tasks.Keys
    && (forall i :: 0 <= i < |s.pending| ==> s.pending[i] in s.tasks)
    && Distinct(s.pending)
    && (forall p :: p in s.projects ==> 1 <= p < s.nextProject)
    && (forall w :: w in s.participants ==> s.participants[w].reputation >= 1)
  }

  ghost predicate Consistent(s: NetState) {
    && Shape(s)
    && forall t :: t in s.tasks ==> Sound(s, t) && Placed(s, t)
  }

  /** Between taking a report and settling its task: the task holds neither
      lease nor queue slot, everything else is consistent. */
  ghost predicate Limbo(s: NetState, t: TaskId) {
    && Shape(s)
    && t in s.tasks && Sound(s, t) && t !in s.leases && t !in s.pending
    && forall u :: u in s.tasks && u != t ==> Sound(s, u) && Placed(s, u)
  }

  /** The three views, spelled out as equivalences. */
  lemma ThreeViews(s: NetState, t: TaskId)
    requires Consistent(s) && t in s.tasks
    ensures forall w, e :: s.tasks[t].status == Assigned(w, e) <==> t in s.leases && s.leases[t] == Lease(w, e)
    ensures s.tasks[t].status.Pending? <==> t in s.pending
    ensures t in s.pending ==> multiset(s.pending)[t] == 1
    ensures !s.tasks[t].status.Open() ==> t !in s.leases && t !in s.pending
  {
    assert Placed(s, t);
    DistinctCount(s.pending, t);
  }

  // ----------------------------------------------------------------- framing

  /** `r` has the tasks, leases and queue of `s`; accounts and projects may
      have been added and their contents changed. */
  ghost predicate SameTasks(s: NetState, r: NetState) {
    && r.tasks == s.tasks && r.leases == s.leases && r.pending == s.pending && r.config == s.config
    && r.nextTask == s.nextTask
    && s.participants.Keys <= r.participants.Keys && s.projects.Keys <= r.projects.Keys
    && Shape(r)
  }

  lemma SameTasksKept(s: NetState, r: NetState)
    requires SameTasks(s, r)
    ensures Consistent(s) ==> Consistent(r)
    ensures forall t :: Limbo(s, t) ==> Limbo(r, t)
  {
    if Consistent(s) {
      forall t | t in r.tasks ensures Sound(r, t) && Placed(r, t) {
        assert Sound(s, t) && Placed(s, t);
      }
    }
    forall t | Limbo(s, t) ensures Limbo(r, t) {
      forall u | u in r.tasks && u != t ensures Sound(r, u) && Placed(r, u) {
        assert Sound(s, u) && Placed(s, u);
      }
    }
  }

  lemma AdjustedAtLeastOne(reputation: u64, delta: int)
    requires -HALF <= delta < HALF && reputation >= 1
    ensures Adjusted(reputation, delta) >= 1
  {}

  lemma AdjustKeeps(ps: map<ParticipantId, Participant>, id: ParticipantId, delta: int)
    requires -HALF <= delta < HALF
    requires forall w :: w in ps ==> ps[w].reputation >= 1
    ensures Adjust(ps, id, delta).Keys == ps.Keys
    ensures forall w :: w in ps ==> Adjust(ps, id, delta)[w].reputation >= 1
  {
    if id in ps {
      AdjustedAtLeastOne(ps[id].reputation, delta);
    }
  }

  lemma {:induction false} AdjustEachKeeps(ps: map<ParticipantId, Participant>, ws: seq<ParticipantId>, delta: int)
    requires -HALF <= delta < HALF
    requires forall w :: w in ps ==> ps[w].reputation >= 1
    ensures AdjustEach(ps, ws, delta).Keys == ps.Keys
    ensures forall w :: w in ps ==> AdjustEach(ps, ws, delta)[w].reputation >= 1
  {
    if ws != [] {
      AdjustEachKeeps(ps, ws[..|ws|-1], delta);
      AdjustKeeps(AdjustEach(ps, ws[..|ws|-1], delta), ws[|ws|-1], delta);
    }
  }

  // -------------------------------------------------------- simple operations

  lemma RegisterConsistent(s: NetState, id: ParticipantId, name: string, key: Option<Key>, balance: u64)
    requires Consistent(s)
    ensures Consistent(Register(s, id, name, key, balance))
  {
    SameTasksKept(s, Register(s, id, name, key, balance));
  }

  lemma NewProjectConsistent(s: NetState, owner: ParticipantId, name: string, key: Option<Key>)
    requires Consistent(s) && s.nextProject >= 1
    ensures Consistent(NewProject(s, owner, name, key).state)
  {
    SameTasksKept(s, NewProject(s, owner, name, key).state);
  }

  lemma DonateConsistent(s: NetState, who: ParticipantId, p: ProjectId, amount: u64)
    requires Consistent(s)
    ensures Consistent(Donate(s, who, p, amount).state)
  {
    SameTasksKept(s, Donate(s, who, p, amount).state);
  }

  lemma TransferConsistent(s: NetState, from: ParticipantId, to: ParticipantId, amount: u64, memo: string)
    requires Consistent(s)
    ensures Consistent(TransferBetween(s, from, to, amount, memo).state)
  {
    SameTasksKept(s, TransferBetween(s, from, to, amount, memo).state);
  }

  lemma NewTaskConsistent(s: NetState, owner: ParticipantId, p: ProjectId, reward: u64, payload: string)
    requires Consistent(s)
    ensures Consistent(NewTask(s, owner, p, reward, payload).state)
  {
    var r := NewTask(s, owner, p, reward, payload).state;
    if NewTask(s, owner, p, reward, payload).out.Ok? {
      var t := s.nextTask;
      assert t in s.tasks ==> Sound(s, t);
      assert t !in s.pending;
      forall u | u in r.tasks ensures Sound(r, u) && Placed(r, u) {
        if u != t {
          assert Sound(s, u) && Placed(s, u);
        }
      }
    }
  }

  // ------------------------------------------------------------------ reclaim

  lemma ReclaimOneConsistent(s: NetState, t: TaskId)
    requires Consistent(s) && t in s.leases
    ensures Consistent(ReclaimOne(s, t))
    ensures ReclaimOne(s, t).leases.Keys == s.leases.Keys - {t}
  {
    var r := ReclaimOne(s, t);
    assert Placed(s, t) && Sound(s, t);
    AdjustKeeps(s.participants, s.leases[t].workerId, PenaltyDelta(s.config));
    forall u | u in r.tasks ensures Sound(r, u) && Placed(r, u) {
      assert Sound(s, u) && Placed(s, u);
    }
  }

  lemma {:induction false} ReclaimAllConsistent(s: NetState, ids: seq<TaskId>)
    requires Consistent(s) && Distinct(ids)
    requires forall i :: 0 <= i < |ids| ==> ids[i] in s.leases
    ensures Consistent(ReclaimAll(s, ids))
    ensures ReclaimAll(s, ids).leases.Keys == s.leases.Keys - (set t | t in ids)
    ensures forall t :: t in s.leases && t !in ids ==> ReclaimAll(s, ids).leases[t] == s.leases[t]
    ensures ReclaimAll(s, ids).config == s.config && ReclaimAll(s, ids).now == s.now
  {
    hide Sound, Placed, Shape;
    if ids != [] {
      var init, t := ids[..|ids|-1], ids[|ids|-1];
      assert ids == init + [t];
      ReclaimAllConsistent(s, init);
      assert t !in init;
      ReclaimOneConsistent(ReclaimAll(s, init), t);
    }
  }

  lemma {:induction false} ExpiredUpToProperties(s: NetState, n: nat)
    ensures forall t :: t in ExpiredUpTo(s, n) <==> t < n && t in s.leases && s.leases[t].expiresAt <= s.now
    ensures Distinct(ExpiredUpTo(s, n))
    ensures SortedBy(ExpiredUpTo(s, n), Itself)
  {
    if n > 0 {
      ExpiredUpToProperties(s, n - 1);
      var rest := ExpiredUpTo(s, n - 1);
      forall i | 0 <= i < |rest| ensures rest[i] < n - 1 {
        assert rest[i] in rest;
      }
    }
  }

  lemma ExpiredIdsProperties(s: NetState)
    ensures forall t :: t in ExpiredIds(s) <==> t in s.leases && s.leases[t].expiresAt <= s.now
    ensures Distinct(ExpiredIds(s)) && SortedBy(ExpiredIds(s), Itself)
    ensures ExpiredIds(s) == [] <==> Unexpired(s)
  {
    ExpiredUpToProperties(s, MaxId(s.leases.Keys));
    if ExpiredIds(s) == [] {
      forall t | t in s.leases ensures s.leases[t].expiresAt > s.now {
        assert t !in ExpiredIds(s);
      }
    } else {
      assert ExpiredIds(s)[0] in ExpiredIds(s);
    }
  }

  lemma {:induction false} ExpiredInProperties(s: NetState, enumeration: seq<TaskId>)
    requires forall t :: t in enumeration ==> t in s.leases
    ensures forall t :: t in ExpiredIn(s, enumeration) <==> t in enumeration && s.leases[t].expiresAt <= s.now
    ensures Distinct(enumeration) ==> Distinct(ExpiredIn(s, enumeration))
  {
    if enumeration != [] {
      var init, t := enumeration[..|enumeration|-1], enumeration[|enumeration|-1];
      assert enumeration == init + [t];
      ExpiredInProperties(s, init);
      if Distinct(enumeration) {
        assert t !in init;
      }
    }
  }

  /** However the lease map happens to be enumerated, the reclaim leaves the
      same state and commits the same block of slashes. */
  lemma {:induction false} ReclaimOrderIndependent(s: NetState, enumeration: seq<TaskId>)
    requires Distinct(enumeration)
    requires forall t :: t in enumeration <==> t in s.leases
    ensures ReclaimEnumerated(s, enumeration) == Reclaim(s)
    ensures SortBy(ExpiredIn(s, enumeration), Itself) == ExpiredIds(s)
  {
    var found := ExpiredIn(s, enumeration);
    ExpiredInProperties(s, enumeration);
    ExpiredIdsProperties(s);
    SortByProperties(found, Itself);
    SameSetSameMultiset(found, ExpiredIds(s));
    SortedUnique(SortBy(found, Itself), ExpiredIds(s));
  }

  lemma ReclaimConsistent(s: NetState)
    requires Consistent(s)
    ensures Consistent(Reclaim(s)) && Unexpired(Reclaim(s))
    ensures forall t :: t in Reclaim(s).leases ==> t in s.leases && Reclaim(s).leases[t] == s.leases[t]
    ensures Reclaim(s).config == s.config && Reclaim(s).now == s.now
  {
    hide Sound, Placed;
    var ids := ExpiredIds(s);
    ExpiredIdsProperties(s);
    ReclaimAllConsistent(s, ids);
    var mid := ReclaimAll(s, ids);
    SameTasksKept(mid, Reclaim(s));
    forall t | t in Reclaim(s).leases ensures Reclaim(s).leases[t].expiresAt > s.now {
      assert t !in ids;
    }
  }

  // --------------------------------------------------------------- scheduling

  /** `take_next_task_for` finds nothing exactly when nothing is eligible, and
      otherwise an eligible queue entry no other eligible entry outranks. */
  lemma {:induction false} BestTaskIsBest(s: NetState, w: ParticipantId, queue: seq<TaskId>)
    ensures var best := BestTask(s, w, queue);
      && (best == None <==> forall t :: t in queue ==> !CanTake(s, w, t))
      && (best.Some? ==> best.value in queue && CanTake(s, w, best.value))
      && (best.Some? ==> forall t :: t in queue && CanTake(s, w, t) ==> AtMost(KeyOf(s, t), KeyOf(s, best.value)))
  {
    if queue != [] {
      var init, t := queue[..|queue|-1], queue[|queue|-1];
      assert queue == init + [t];
      BestTaskIsBest(s, w, init);
      assert t in queue;
    }
  }

  lemma {:induction false} AssignConsistent(s: NetState, w: ParticipantId, t: TaskId)
    requires Consistent(s) && w in s.participants && t in s.pending && CanTake(s, w, t)
    ensures var r := Assign(s.(pending := Without(s.pending, t)), w, t);
      Consistent(r.state) && r.out.Ok? && r.out.value == r.state.tasks[t]
      && r.state.leases == s.leases[t := Lease(w, Add(s.now, s.config.leaseTimeoutTicks))]
  {
    var r := Assign(s.(pending := Without(s.pending, t)), w, t).state;
    WithoutProperties(s.pending, t);
    assert Sound(s, t) && Placed(s, t);
    forall i | 0 <= i < |r.pending| ensures r.pending[i] in r.tasks {
      assert r.pending[i] in r.pending;
    }
    forall u | u in r.tasks ensures Sound(r, u) && Placed(r, u) {
      assert Sound(s, u) && Placed(s, u);
    }
  }

  lemma RequestConsistent(s: NetState, w: ParticipantId)
    requires Consistent(s)
    ensures Consistent(Request(s, w).state)
    ensures Request(s, w).out.Err? ==> Request(s, w).state == if w in s.participants then Reclaim(s) else s
  {
    if w in s.participants {
      ReclaimConsistent(s);
      ReclaimParticipants(s);
      var s1 := Reclaim(s);
      BestTaskIsBest(s1, w, s1.pending);
      match BestTask(s1, w, s1.pending)
      case None =>
      case Some(t) => AssignConsistent(s1, w, t);
    }
  }

  lemma {:induction false} ReclaimAllParticipants(s: NetState, ids: seq<TaskId>)
    ensures ReclaimAll(s, ids).participants.Keys == s.participants.Keys
    ensures ReclaimAll(s, ids).projects == s.projects && ReclaimAll(s, ids).ledger == s.ledger
    ensures ReclaimAll(s, ids).nextProject == s.nextProject && ReclaimAll(s, ids).nextTask == s.nextTask
    ensures ReclaimAll(s, ids).tasks.Keys == s.tasks.Keys
    ensures ReclaimAll(s, ids).config == s.config && ReclaimAll(s, ids).now == s.now
  {
    if ids != [] {
      ReclaimAllParticipants(s, ids[..|ids|-1]);
    }
  }

  lemma ReclaimParticipants(s: NetState)
    ensures Reclaim(s).participants.Keys == s.participants.Keys
    ensures Reclaim(s).projects == s.projects
    ensures Reclaim(s).nextProject == s.nextProject && Reclaim(s).nextTask == s.nextTask
    ensures Reclaim(s).config == s.config && Reclaim(s).now == s.now
  {
    ReclaimAllParticipants(s, ExpiredIds(s));
  }

  lemma HeartbeatConsistent(s: NetState, w: ParticipantId, t: TaskId)
    requires Consistent(s)
    ensures Consistent(Heartbeat(s, w, t).state)
  {
    if w in s.participants {
      ReclaimConsistent(s);
      var s1 := Reclaim(s);
      if t in s1.leases && s1.leases[t].workerId == w {
        assert Sound(s1, t) && Placed(s1, t);
        var r := Heartbeat(s, w, t).state;
        forall u | u in r.tasks ensures Sound(r, u) && Placed(r, u) {
          assert Sound(s1, u) && Placed(s1, u);
        }
      }
    }
  }

  // ------------------------------------------------------------------ results

  lemma ReportLimbo(s: NetState, w: ParticipantId, t: TaskId, report: TaskReport)
    requires Consistent(s) && t in s.leases && s.leases[t].workerId == w && report.workerId == w
    ensures Limbo(Report(s, w, t, report), t)
  {
    assert Sound(s, t) && Placed(s, t);
    var r := Report(s, w, t, report);
    var task := s.tasks[t];
    forall i | 0 <= i < |task.reports| ensures task.reports[i].workerId != w {
      assert !Reported(task, w);
    }
    forall u | u in r.tasks && u != t ensures Sound(r, u) && Placed(r, u) {
      assert Sound(s, u) && Placed(s, u);
    }
  }

  /** Settling a task in limbo in any terminal status restores consistency. */
  lemma CloseLimbo(s: NetState, t: TaskId, task: Task)
    requires Limbo(s, t)
    requires !task.status.Open()
    requires task == s.tasks[t].(status := task.status, encryptedResult := task.encryptedResult)
    ensures Consistent(s.(tasks := s.tasks[t := task]))
  {
    var r := s.(tasks := s.tasks[t := task]);
    forall u | u in r.tasks ensures Sound(r, u) && Placed(r, u) {
      if u != t {
        assert Sound(s, u) && Placed(s, u);
      }
    }
  }

  lemma ReleaseLimbo(s: NetState, t: TaskId)
    requires Limbo(s, t)
    ensures var r := Release(s, s.tasks[t].projectId, s.tasks[t].reward);
      r.out.Ok? && Limbo(r.state, t) && r.state.tasks == s.tasks && r.state.participants == s.participants
  {
    SameTasksKept(s, Release(s, s.tasks[t].projectId, s.tasks[t].reward).state);
  }

  lemma RejectConsistent(s: NetState, t: TaskId)
    requires Limbo(s, t)
    ensures Consistent(Reject(s, t).state) && Reject(s, t).out.Ok?
    ensures Reject(s, t).state.tasks == s.tasks[t := s.tasks[t].(status := Rejected)]
  {
    ReleaseLimbo(s, t);
    var task := s.tasks[t];
    var s1 := Release(s, task.projectId, task.reward).state;
    AdjustEachKeeps(s.participants, Reporters(task.reports), PenaltyDelta(s.config));
    var project := s1.projects[task.projectId];
    var s3 := s1.(projects := s1.projects[task.projectId :=
                    project.(quotaAvailable := Add(project.quotaAvailable, task.reward))],
                  participants := AdjustEach(s1.participants, Reporters(task.reports), PenaltyDelta(s.config)));
    SameTasksKept(s1, s3);
    CloseLimbo(s3, t, task.(status := Rejected));
  }

  lemma ExhaustConsistent(s: NetState, t: TaskId, digest: string, ws: seq<ParticipantId>, blob: Option<Blob>)
    requires Limbo(s, t)
    ensures Consistent(Exhaust(s, t, digest, ws, blob).state) && Exhaust(s, t, digest, ws, blob).out.Ok?
    ensures Exhaust(s, t, digest, ws, blob).state.tasks ==
      s.tasks[t := s.tasks[t].(status := QuotaExhausted(digest, ws), encryptedResult := blob)]
  {
    ReleaseLimbo(s, t);
    var task := s.tasks[t];
    var s1 := Release(s, task.projectId, task.reward).state;
    var s2 := if task.reward > 0 then Commit(s1, [Burn(ProjectAddress(task.projectId), task.reward)]) else s1;
    SameTasksKept(s1, s2);
    CloseLimbo(s2, t, task.(status := QuotaExhausted(digest, ws), encryptedResult := blob));
  }

  lemma {:induction false} SettleConsistent(s: NetState, t: TaskId, digest: string, winners: seq<Winner>)
    requires Limbo(s, t) && WrappedWeight(winners) > 0
    ensures Consistent(Settle(s, t, digest, winners))
    ensures Settle(s, t, digest, winners).tasks[t].status.Completed?
    ensures forall u :: u in s.tasks && u != t ==> Settle(s, t, digest, winners).tasks[u] == s.tasks[u]
  {
    var task := s.tasks[t];
    var workers := Backers(task.reports, digest);
    var txs := RewardTxs(ProjectAddress(task.projectId), t, Distribute(task.reward, WrappedWeight(winners), winners));
    var s1 := if txs == [] then s else Commit(s, txs);
    AdjustEachKeeps(s.participants, workers, RewardDelta(s.config));
    var praised := AdjustEach(s.participants, workers, RewardDelta(s.config));
    AdjustEachKeeps(praised, Dissenters(task.reports, digest), PenaltyDelta(s.config));
    var s2 := s1.(participants := AdjustEach(praised, Dissenters(task.reports, digest), PenaltyDelta(s.config)));
    SameTasksKept(s, s2);
    CloseLimbo(s2, t, task.(status := Completed(digest, workers), encryptedResult := FirstBlob(task.reports, digest)));
  }

  /** How one call of `submit_result` leaves the task it reported on. */
  ghost predicate Settles(before: Task, after: Task, done: bool) {
    && after == before.(status := after.status, encryptedResult := after.encryptedResult)
    && done == !after.status.Open()
    && (!done ==> after.status.Pending?)
  }

  lemma FinalizeConsistent(s: NetState, t: TaskId, digest: string)
    requires Limbo(s, t)
    ensures Consistent(Finalize(s, t, digest).state) && Finalize(s, t, digest).out.Ok?
    ensures t in Finalize(s, t, digest).state.tasks
    ensures Settles(s.tasks[t], Finalize(s, t, digest).state.tasks[t], true)
    ensures Finalize(s, t, digest).state.tasks.Keys == s.tasks.Keys
    ensures forall u :: u in s.tasks && u != t ==> Finalize(s, t, digest).state.tasks[u] == s.tasks[u]
  {
    hide Sound, Placed, Shape, Consistent, Exhaust, Reject, IsBudgetExhausted;
    var task := s.tasks[t];
    var workers := Backers(task.reports, digest);
    if workers == [] {
      RejectConsistent(s, t);
    } else if IsBudgetExhausted(digest) {
      ExhaustConsistent(s, t, digest, workers, FirstBlob(task.reports, digest));
    } else {
      ReleaseLimbo(s, t);
      var s1 := Release(s, task.projectId, task.reward).state;
      var winners := Weighted(s.participants, workers);
      if WrappedWeight(winners) == 0 {
        RejectConsistent(s1, t);
      } else {
        SettleConsistent(s1, t, digest, winners);
      }
    }
  }

  lemma RequeueConsistent(s: NetState, t: TaskId)
    requires Limbo(s, t) && |s.tasks[t].reports| < s.tasks[t].maxReports
    ensures Consistent(Requeue(s, t).state) && Requeue(s, t).out.Ok?
  {
    var r := Requeue(s, t).state;
    forall u | u in r.tasks ensures Sound(r, u) && Placed(r, u) {
      if u != t {
        assert Sound(s, u) && Placed(s, u);
      }
    }
  }

  lemma ConcludeConsistent(s: NetState, t: TaskId)
    requires Limbo(s, t)
    ensures Consistent(Conclude(s, t).state) && Conclude(s, t).out.Ok?
    ensures t in Conclude(s, t).state.tasks
    ensures Settles(s.tasks[t], Conclude(s, t).state.tasks[t], Conclude(s, t).out.value)
    ensures Conclude(s, t).state.tasks.Keys == s.tasks.Keys
    ensures forall u :: u in s.tasks && u != t ==> Conclude(s, t).state.tasks[u] == s.tasks[u]
  {
    var task := s.tasks[t];
    match ConsensusDigest(s.participants, task.reports, task.weightRequired)
    case Some(digest) => FinalizeConsistent(s, t, digest);
    case None =>
      if |task.reports| >= task.maxReports {
        RejectConsistent(s, t);
      } else {
        RequeueConsistent(s, t);
      }
  }

  lemma SubmitConsistent(s: NetState, w: ParticipantId, t: TaskId, digest: string, cost: u64, blob: Option<Blob>)
    requires Consistent(s)
    ensures Consistent(Submit(s, w, t, digest, cost, blob).state)
    ensures var r := Submit(s, w, t, digest, cost, blob);
      r.out.Err? ==> r.state == if w in s.participants then Reclaim(s) else s
  {
    if w in s.participants {
      ReclaimConsistent(s);
      var s1 := Reclaim(s);
      if t in s1.leases && s1.leases[t].workerId == w {
        assert Placed(s1, t);
        ReportLimbo(s1, w, t, TaskReport(w, digest, cost, blob));
        ConcludeConsistent(Report(s1, w, t, TaskReport(w, digest, cost, blob)), t);
      }
    }
  }

  lemma AdvanceConsistent(s: NetState, n: u64)
    requires Consistent(s)
    ensures Consistent(Advance(s, n)) && Unexpired(Advance(s, n))
  {
    var s1 := s.(now := SatAdd(s.now, n));
    SameTasksKept(s, s1);
    ReclaimConsistent(s1);
  }

  // ------------------------------------------------------------ what stays put

  lemma {:induction false} AdjustEachKeys(ps: map<ParticipantId, Participant>, ws: seq<ParticipantId>, delta: int)
    requires -HALF <= delta < HALF
    ensures AdjustEach(ps, ws, delta).Keys == ps.Keys
  {
    if ws != [] {
      AdjustEachKeys(ps, ws[..|ws|-1], delta);
    }
  }

  /** Fields an operation on one task never changes. */
  ghost predicate SameFrame(s: NetState, r: NetState) {
    && r.now == s.now && r.config == s.config && r.nextProject == s.nextProject && r.nextTask == s.nextTask
    && r.participants.Keys == s.participants.Keys && r.projects.Keys == s.projects.Keys
  }

  lemma RejectFrame(s: NetState, t: TaskId)
    ensures SameFrame(s, Reject(s, t).state) && Reject(s, t).state.leases == s.leases
    ensures Reject(s, t).state.pending == s.pending
  {
    if t in s.tasks {
      AdjustEachKeys(s.participants, Reporters(s.tasks[t].reports), PenaltyDelta(s.config));
    }
  }

  lemma {:induction false} SettleFrame(s: NetState, t: TaskId, digest: string, winners: seq<Winner>)
    requires t in s.tasks && WrappedWeight(winners) > 0
    ensures SameFrame(s, Settle(s, t, digest, winners)) && Settle(s, t, digest, winners).leases == s.leases
    ensures Settle(s, t, digest, winners).pending == s.pending
  {
    var workers := Backers(s.tasks[t].reports, digest);
    AdjustEachKeys(s.participants, workers, RewardDelta(s.config));
    AdjustEachKeys(AdjustEach(s.participants, workers, RewardDelta(s.config)),
                   Dissenters(s.tasks[t].reports, digest), PenaltyDelta(s.config));
  }

  lemma ExhaustFrame(s: NetState, t: TaskId, digest: string, ws: seq<ParticipantId>, blob: Option<Blob>)
    requires t in s.tasks
    ensures SameFrame(s, Exhaust(s, t, digest, ws, blob).state) &&
      Exhaust(s, t, digest, ws, blob).state.leases == s.leases
    ensures Exhaust(s, t, digest, ws, blob).state.pending == s.pending
  {}

  lemma FinalizeFrame(s: NetState, t: TaskId, digest: string)
    ensures SameFrame(s, Finalize(s, t, digest).state) && Finalize(s, t, digest).state.leases == s.leases
    ensures Finalize(s, t, digest).state.pending == s.pending
  {
    if t in s.tasks {
      var task := s.tasks[t];
      var workers := Backers(task.reports, digest);
      if workers == [] {
        RejectFrame(s, t);
      } else if IsBudgetExhausted(digest) {
        ExhaustFrame(s, t, digest, workers, FirstBlob(task.reports, digest));
      } else {
        var released := Release(s, task.projectId, task.reward);
        var winners := Weighted(s.participants, workers);
        assert SameFrame(s, released.state);
        if released.out.Ok? {
          if WrappedWeight(winners) == 0 {
            RejectFrame(released.state, t);
          } else {
            SettleFrame(released.state, t, digest, winners);
          }
        }
      }
    }
  }

  lemma ConcludeFrame(s: NetState, t: TaskId)
    requires t in s.tasks
    ensures SameFrame(s, Conclude(s, t).state) && Conclude(s, t).state.leases == s.leases
  {
    match ConsensusDigest(s.participants, s.tasks[t].reports, s.tasks[t].weightRequired)
    case Some(digest) => FinalizeFrame(s, t, digest);
    case None => RejectFrame(s, t);
  }

  lemma SubmitFrame(s: NetState, w: ParticipantId, t: TaskId, digest: string, cost: u64, blob: Option<Blob>)
    ensures SameFrame(s, Submit(s, w, t, digest, cost, blob).state)
    ensures var r := Submit(s, w, t, digest, cost, blob).state;
      r.leases == s.leases || r.leases == Reclaim(s).leases || r.leases == Reclaim(s).leases - {t}
  {
    if w in s.participants {
      ReclaimParticipants(s);
      var s1 := Reclaim(s);
      if t in s1.leases && s1.leases[t].workerId == w && t in s1.tasks {
        ConcludeFrame(Report(s1, w, t, TaskReport(w, digest, cost, blob)), t);
      }
    }
  }

  lemma ApplyFrame(s: NetState, op: LedgerOp)
    ensures Apply(s, op).config == s.config
    ensures Apply(s, op).nextProject == s.nextProject + if op.CreateProject? && Succeeds(s, op) then 1 else 0
  {
    match op
    case RequestTask(w, _) => ReclaimParticipants(s);
    case SubmitResult(w, t, digest, cost, blob) => SubmitFrame(s, w, t, digest, cost, blob);
    case Tick(n) => ReclaimParticipants(s.(now := SatAdd(s.now, n)));
    case _ =>
  }

  // ------------------------------------------------------------- over all runs

  lemma ApplyConsistent(s: NetState, op: LedgerOp)
    requires Consistent(s) && s.nextProject >= 1
    ensures Consistent(Apply(s, op))
  {
    match op
    case RegisterParticipant(id, name, key, balance) => RegisterConsistent(s, id, name, Some(key), balance);
    case CreateProject(owner, name, key) => NewProjectConsistent(s, owner, name, key);
    case TransferTokens(from, to, amount, memo) => TransferConsistent(s, from, to, amount, memo);
    case FundProject(owner, p, amount) => DonateConsistent(s, owner, p, amount);
    case DonateToProject(supporter, p, amount) => DonateConsistent(s, supporter, p, amount);
    case SubmitTask(owner, p, reward, payload) => NewTaskConsistent(s, owner, p, reward, payload);
    case RequestTask(w, _) => RequestConsistent(s, w);
    case SubmitResult(w, t, digest, cost, blob) => SubmitConsistent(s, w, t, digest, cost, blob);
    case Tick(n) => AdvanceConsistent(s, n);
  }

  /** Every state reachable from a fresh replica, by any operations and under
      any configuration, is consistent. */
  lemma {:induction false} ReachableConsistent(config: Config, ops: seq<LedgerOp>)
    ensures var s := ApplyAll(Fresh(config), ops);
      Consistent(s) && s.nextProject >= 1 && s.config == config
  {
    if ops != [] {
      ReachableConsistent(config, ops[..|ops|-1]);
      ApplyConsistent(ApplyAll(Fresh(config), ops[..|ops|-1]), ops[|ops|-1]);
      ApplyFrame(ApplyAll(Fresh(config), ops[..|ops|-1]), ops[|ops|-1]);
    }
  }

  // ------------------------------------------------ failed operations, the clock

  /** No lease is due. */
  ghost predicate Unexpired(s: NetState) {
    forall t :: t in s.leases ==> s.leases[t].expiresAt > s.now
  }

  lemma ReclaimIdle(s: NetState)
    requires Unexpired(s)
    ensures Reclaim(s) == s
  {
    ExpiredIdsProperties(s);
  }

  /** A failed operation leaves the whole state as it was, given that no lease
      is due beforehand. */
  lemma FailureChangesNothing(s: NetState, op: LedgerOp)
    requires Consistent(s) && Unexpired(s)
    requires !Succeeds(s, op)
    ensures Apply(s, op) == s
  {
    ReclaimIdle(s);
    match op
    case RequestTask(w, _) => RequestConsistent(s, w);
    case SubmitResult(w, t, digest, cost, blob) => SubmitConsistent(s, w, t, digest, cost, blob);
    case _ =>
  }

  /** A reclaim has nothing to do exactly when no lease is due. */
  lemma ReclaimIdleExactly(s: NetState)
    requires Consistent(s)
    ensures Reclaim(s) == s <==> Unexpired(s)
  {
    hide Consistent, Reclaim;
    if Unexpired(s) {
      ReclaimIdle(s);
    }
    ReclaimConsistent(s);
  }

  lemma RequestFailure(s: NetState, w: ParticipantId)
    requires Consistent(s) && Request(s, w).out.Err? && w in s.participants
    ensures Request(s, w).state == Reclaim(s)
  {
    hide Consistent, Reclaim;
    RequestConsistent(s, w);
  }

  lemma ReportFailure(s: NetState, w: ParticipantId, t: TaskId, digest: string, cost: u64, blob: Option<Blob>)
    requires Consistent(s) && Submit(s, w, t, digest, cost, blob).out.Err? && w in s.participants
    ensures Submit(s, w, t, digest, cost, blob).state == Reclaim(s)
  {
    hide Consistent, Reclaim, Conclude;
    SubmitConsistent(s, w, t, digest, cost, blob);
  }

  /** Exactly when a failing request or report by a known worker is harmless:
      when the reclaim it performs on the way has nothing to do. */
  lemma FailureExactly(s: NetState, op: LedgerOp)
    requires Consistent(s) && !Succeeds(s, op)
    requires (op.RequestTask? || op.SubmitResult?) && op.workerId in s.participants
    ensures Apply(s, op) == s <==> Unexpired(s)
  {
    hide Consistent, Reclaim, Request, Submit, Unexpired;
    ReclaimIdleExactly(s);
    match op {
      case RequestTask(w, _) => RequestFailure(s, w);
      case SubmitResult(w, t, digest, cost, blob) => ReportFailure(s, w, t, digest, cost, blob);
    }
  }

  /** Exactly when an assignment keeps the clock condition: the timeout is
      positive and the expiry does not wrap past the end of the clock. */
  lemma AssignmentUnexpiredExactly(s: NetState, w: ParticipantId)
    requires Consistent(s) && Unexpired(s) && Request(s, w).out.Ok?
    ensures Unexpired(Request(s, w).state) <==>
      1 <= s.config.leaseTimeoutTicks && s.now + s.config.leaseTimeoutTicks < LIMIT
  {
    ReclaimIdle(s);
    BestTaskIsBest(s, w, s.pending);
    var t := BestTask(s, w, s.pending).value;
    AssignConsistent(s, w, t);
    var r := Request(s, w).state;
    assert r.now == s.now && r.leases == s.leases[t := Lease(w, Add(s.now, s.config.leaseTimeoutTicks))];
    assert t in r.leases;
  }

  /** Every operation keeps the leases unexpired while the clock is at least
      one timeout away from its limit. */
  lemma ApplyUnexpired(s: NetState, op: LedgerOp)
    requires Consistent(s) && Unexpired(s)
    requires s.config.leaseTimeoutTicks >= 1 && s.now + s.config.leaseTimeoutTicks < LIMIT
    ensures Unexpired(Apply(s, op))
    ensures !op.Tick? ==> Apply(s, op).now == s.now
  {
    hide Sound, Placed, Shape, Reclaim;
    ReclaimIdle(s);
    match op
    case RequestTask(w, _) =>
      RequestConsistent(s, w);
      if Request(s, w).out.Ok? {
        AssignmentUnexpiredExactly(s, w);
        BestTaskIsBest(s, w, s.pending);
      }
    case SubmitResult(w, t, digest, cost, blob) => SubmitUnexpired(s, w, t, digest, cost, blob);
    case Tick(n) => AdvanceConsistent(s, n);
    case _ =>
  }

  lemma SubmitUnexpired(s: NetState, w: ParticipantId, t: TaskId, digest: string, cost: u64, blob: Option<Blob>)
    requires Unexpired(s)
    ensures var r := Submit(s, w, t, digest, cost, blob).state;
      Unexpired(r) && r.now == s.now
  {
    ReclaimIdle(s);
    SubmitFrame(s, w, t, digest, cost, blob);
  }

  function TicksIn(ops: seq<LedgerOp>): nat {
    if ops == [] then 0
    else TicksIn(ops[..|ops|-1]) + if ops[|ops|-1].Tick? then ops[|ops|-1].n else 0
  }

  /** In every run whose ticks leave room for one timeout, no lease is ever due
      between operations; so by `FailureChangesNothing` failed operations have
      no effect at all. */
  lemma {:induction false} ReachableUnexpired(config: Config, ops: seq<LedgerOp>)
    requires config.leaseTimeoutTicks >= 1
    requires TicksIn(ops) + config.leaseTimeoutTicks < LIMIT
    ensures Unexpired(ApplyAll(Fresh(config), ops))
    ensures ApplyAll(Fresh(config), ops).now == TicksIn(ops)
  {
    if ops != [] {
      var init, op := ops[..|ops|-1], ops[|ops|-1];
      ReachableUnexpired(config, init);
      ReachableConsistent(config, init);
      var s := ApplyAll(Fresh(config), init);
      ApplyUnexpired(s, op);
      if op.Tick? {
        ReclaimParticipants(s.(now := SatAdd(s.now, op.n)));
      }
    }
  }

  /** Only the holder of a task's lease can report on it. */
  lemma StrangerFails(s: NetState, w: ParticipantId, t: TaskId, digest: string, cost: u64, blob: Option<Blob>)
    requires Consistent(s) && (t in s.leases ==> s.leases[t].workerId != w)
    ensures !Succeeds(s, SubmitResult(w, t, digest, cost, blob))
  {
    ReclaimConsistent(s);
  }
}
