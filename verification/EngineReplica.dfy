/** The two halves together: what the economic laws say of the replica inside a
    consensus engine, after any run of that engine. */
module EngineReplica {
  import opened Words
  import opened Ledger
  import opened Model
  import opened NetworkSpec
  import opened TaskInvariants
  import opened TaskOutcomes
  import opened QuotaInvariants
  import opened QuotaRuns
  import opened Solvency
  import opened EngineSpec
  import opened EngineInvariants
  import opened EngineRuns

  /** Whatever messages an engine was given, its tasks, leases and queue agree,
      and no task has been or will be rejected: a task is open and unreported, or
      was settled by its first report. */
  lemma {:induction false} TasksOfEngine(c: Crypto, me: Key, initial: set<Key>, events: seq<Event>)
    requires SignsWell(c) && AllAllowed(c, events)
    ensures var s := Run(c, me, initial, events).engine.state;
      Consistent(s) && Untried(s) && forall t :: t in s.tasks ==> !s.tasks[t].status.Rejected?
  {
    hide Run, Consistent, ApplyAll;
    ReplicaIsReplay(c, me, initial, events);
    var chain := Run(c, me, initial, events).engine.chain;
    ReachableConsistent(ENGINE_CONFIG, OpsOf(chain));
    QuorumOneNeverRejects(ENGINE_CONFIG, OpsOf(chain));
  }

  /** If the committed operations fit, the locked field of every project of the
      engine's replica is what its open tasks are due and its fields are covered by
      its balance, to the token if the products leave room. If moreover no worker
      ever loses two leases at once, no account of the replica is overdrawn. */
  lemma {:induction false} MoneyOfEngine(c: Crypto, me: Key, initial: set<Key>, events: seq<Event>, n: nat,
      minted: nat, bound: nat, p: ProjectId)
    requires SignsWell(c) && AllAllowed(c, events)
    requires Fits(ENGINE_CONFIG, OpsOf(Run(c, me, initial, events).engine.chain), n, minted, bound)
    ensures var e := Run(c, me, initial, events).engine;
      && (p in e.state.projects ==>
            var project := e.state.projects[p]; var balance := e.state.BalanceOf(ProjectAddress(p));
            && project.quotaAvailable + project.quotaLocked <= balance
            && (minted * bound < LIMIT ==> project.quotaAvailable + project.quotaLocked == balance)
            && project.quotaLocked == LockedSum(e.state.tasks, p, e.state.nextTask))
      && (NeverTwoAtOnce(ENGINE_CONFIG, OpsOf(e.chain)) ==> NonNegative(e.state.Txs()))
  {
    hide Run, Consistent, ApplyAll, Fits, NonNegative, NeverTwoAtOnce;
    ReplicaIsReplay(c, me, initial, events);
    var e := Run(c, me, initial, events).engine;
    var ops := OpsOf(e.chain);
    if p in e.state.projects {
      QuotaWithinBalance(ENGINE_CONFIG, ops, n, minted, bound, p);
      if minted * bound < LIMIT {
        QuotaIsBalance(ENGINE_CONFIG, ops, n, minted, bound, p);
      }
    }
    if NeverTwoAtOnce(ENGINE_CONFIG, ops) {
      RunNonNegative(ENGINE_CONFIG, ops, n, minted, bound);
    }
  }
}
