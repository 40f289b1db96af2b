/** When raw balances stay non-negative, so that the clamp in `balance_of`
    never hides a debt. A batch of slashes reads every balance before the
    batch, so one worker losing several leases at once can be overdrawn. */
module Solvency {
  import opened Words
  import opened Sequences
  import opened Ledger
  import opened Model
  import opened Reward
  import opened NetworkSpec
  import opened TaskInvariants
  import opened TaskOutcomes
  import opened QuotaInvariants
  import opened QuotaRuns

  ghost predicate NonNegative(txs: seq<Transaction>) {
    forall a: Address :: Raw(txs, a) >= 0
  }

  /** How many of the listed leases the worker holds. */
  function Held(s: NetState, ids: seq<TaskId>, w: ParticipantId): nat {
    if ids == [] then 0
    else
      var t := ids[|ids|-1];
      Held(s, ids[..|ids|-1], w) + if t in s.leases && s.leases[t].workerId == w then 1 else 0
  }

  function SlashPerLease(s: NetState, w: ParticipantId): u64 {
    Min(s.config.leaseSlash, s.BalanceOf(w))
  }

  lemma {:induction false} ReclaimAllElsewhere(s: NetState, ids: seq<TaskId>, t: TaskId)
    requires t !in ids
    ensures t in s.tasks ==> t in ReclaimAll(s, ids).tasks && ReclaimAll(s, ids).tasks[t] == s.tasks[t]
  {
    if ids != [] {
      var init := ids[..|ids|-1];
      assert ids == init + [ids[|ids|-1]];
      ReclaimAllElsewhere(s, init, t);
    }
  }

  lemma {:induction false} OneSlash(s: NetState, init: seq<TaskId>, t: TaskId, a: Address)
    requires Consistent(s) && t in s.leases && t !in init
    ensures Raw(SlashOf(ReclaimAll(s, init), t), a)
      == if s.leases[t].workerId == a then -(SlashPerLease(s, a) as int) else 0
  {
    var mid := ReclaimAll(s, init);
    assert Placed(s, t);
    ReclaimAllElsewhere(s, init, t);
    ReclaimAllLeases(s, init);
    ReclaimAllParticipants(s, init);
    var w := s.leases[t].workerId;
    assert mid.BalanceOf(w) == s.BalanceOf(w);
    var slash := SlashPerLease(s, w);
    if slash > 0 {
      assert SlashOf(mid, t) == [Burn(w, slash)];
      RawOne(Burn(w, slash), a);
    }
  }

  /** What one batch of slashes takes from an account: a full slash for every
      lease lost, each computed from the balance before the batch. */
  lemma {:induction false} BatchTakes(s: NetState, ids: seq<TaskId>, a: Address)
    requires Consistent(s) && Distinct(ids) && forall i :: 0 <= i < |ids| ==> ids[i] in s.leases
    ensures Raw(Slashes(s, ids), a) == -(Held(s, ids, a) * SlashPerLease(s, a))
  {
    hide Consistent, SlashOf;
    if ids != [] {
      var init, t := ids[..|ids|-1], ids[|ids|-1];
      assert ids == init + [t];
      BatchTakes(s, init, a);
      OneSlash(s, init, t, a);
      RawConcat(Slashes(s, init), SlashOf(ReclaimAll(s, init), t), a);
      NextMultiple(Held(s, init, a), SlashPerLease(s, a));
    }
  }

  lemma {:induction false} ReclaimTakes(s: NetState, a: Address)
    requires Consistent(s)
    ensures Raw(Reclaim(s).Txs(), a) == Raw(s.Txs(), a) - Held(s, ExpiredIds(s), a) * SlashPerLease(s, a)
  {
    var ids := ExpiredIds(s);
    ExpiredIdsProperties(s);
    BatchTakes(s, ids, a);
    var mid := ReclaimAll(s, ids);
    ReclaimAllParticipants(s, ids);
    CommitTxs(mid, Slashes(s, ids));
    RawConcat(s.Txs(), Slashes(s, ids), a);
  }

  /** Every worker can pay for all the leases it is about to lose. */
  ghost predicate CanPay(s: NetState) {
    forall w: ParticipantId :: Held(s, ExpiredIds(s), w) * SlashPerLease(s, w) <= Raw(s.Txs(), w)
  }

  /** A reclaim overdraws nobody exactly when everyone can pay. */
  lemma ReclaimNonNegativeExactly(s: NetState)
    requires Consistent(s)
    ensures NonNegative(Reclaim(s).Txs()) <==> CanPay(s)
  {
    forall a: Address ensures Raw(Reclaim(s).Txs(), a) >= 0 <==>
        Held(s, ExpiredIds(s), a) * SlashPerLease(s, a) <= Raw(s.Txs(), a)
    {
      ReclaimTakes(s, a);
    }
    if CanPay(s) {
      forall a: Address ensures Raw(Reclaim(s).Txs(), a) >= 0 {
        assert Held(s, ExpiredIds(s), a) * SlashPerLease(s, a) <= Raw(s.Txs(), a);
      }
    }
  }

  /** No worker is about to lose two leases. */
  ghost predicate OneEach(s: NetState) {
    forall t, u | t in s.leases && u in s.leases && t != u ::
      s.leases[t].expiresAt <= s.now && s.leases[u].expiresAt <= s.now ==>
        s.leases[t].workerId != s.leases[u].workerId
  }

  lemma {:induction false} HeldAtMostOne(s: NetState, ids: seq<TaskId>, w: ParticipantId)
    requires OneEach(s) && Distinct(ids)
    requires forall i :: 0 <= i < |ids| ==> ids[i] in s.leases && s.leases[ids[i]].expiresAt <= s.now
    ensures Held(s, ids, w) <= 1
    ensures Held(s, ids, w) == 1 ==> exists i :: 0 <= i < |ids| && s.leases[ids[i]].workerId == w
  {
    if ids != [] {
      var init, t := ids[..|ids|-1], ids[|ids|-1];
      HeldAtMostOne(s, init, w);
      if Held(s, init, w) == 1 {
        var i :| 0 <= i < |init| && s.leases[init[i]].workerId == w;
        assert ids[i] == init[i] && ids[i] != t;
      }
      assert ids[|ids|-1] == t;
    }
  }

  lemma OneEachCanPay(s: NetState)
    requires OneEach(s) && NonNegative(s.Txs())
    ensures CanPay(s)
  {
    hide Held, SlashPerLease, NonNegative, Raw, OneEach;
    var ids := ExpiredIds(s);
    ExpiredIdsProperties(s);
    assert forall i :: 0 <= i < |ids| ==> ids[i] in ids;
    forall w: ParticipantId ensures Held(s, ids, w) * SlashPerLease(s, w) <= Raw(s.Txs(), w) {
      HeldAtMostOne(s, ids, w);
      SlashAffordable(s, w);
      AtMostOneTime(Held(s, ids, w), SlashPerLease(s, w));
    }
  }

  lemma {:induction false} SlashAffordable(s: NetState, w: ParticipantId)
    requires NonNegative(s.Txs())
    ensures SlashPerLease(s, w) <= Raw(s.Txs(), w)
  {
    assert Raw(s.Txs(), w) >= 0;
    BalanceAtMostClamp(s.Txs(), w);
  }

  lemma AtMostOneTime(k: nat, x: nat)
    requires k <= 1
    ensures k * x <= x
  {}

  // ------------------------------------------------------- the other operations

  lemma CommitNonNegative(s: NetState, tx: Transaction)
    requires NonNegative(s.Txs())
    requires tx.Transfer? ==> tx.amount <= s.BalanceOf(tx.from) || tx.amount <= Raw(s.Txs(), tx.from)
    requires tx.Burn? ==> tx.amount <= Raw(s.Txs(), tx.from)
    ensures NonNegative(Commit(s, [tx]).Txs())
  {
    forall a: Address ensures Raw(Commit(s, [tx]).Txs(), a) >= 0 {
      CommitOne(s, tx, a);
      assert Raw(s.Txs(), a) >= 0;
      if !tx.Mint? {
        assert Raw(s.Txs(), tx.from) >= 0;
        BalanceAtMostClamp(s.Txs(), tx.from);
      }
    }
  }

  lemma {:induction false} RewardsAddUp(txs: seq<Transaction>, from: Address, t: TaskId, shares: seq<Share>, a: Address)
    requires a != from
    ensures Raw(txs + RewardTxs(from, t, shares), a) >= Raw(txs, a)
  {
    if shares == [] {
      assert txs + [] == txs;
    } else {
      var init, last := shares[..|shares|-1], shares[|shares|-1];
      RewardsAddUp(txs, from, t, init, a);
      if last.amount > 0 {
        var tx := Transfer(from, last.id, last.amount, RewardMemo(t));
        RawSnoc(txs, RewardTxs(from, t, init), tx, a);
      }
    }
  }

  lemma {:induction false} RawSnoc(txs: seq<Transaction>, more: seq<Transaction>, tx: Transaction, a: Address)
    ensures Raw(txs + (more + [tx]), a) == Raw(txs + more, a) + Delta(tx, a)
  {
    var before := txs + more;
    assert txs + (more + [tx]) == before + [tx];
    assert (before + [tx])[..|before|] == before;
  }

  lemma {:induction false} SettleNonNegative(s: NetState, n: nat, t: TaskId, digest: string, winners: seq<Winner>)
    requires Limbo(s, t) && Quotas(s, n, false) && s.tasks[t].status.Open() && NonNegative(s.Txs())
    requires WrappedWeight(winners) > 0
    requires forall i :: 0 <= i < |winners| ==> winners[i].id in s.participants
    requires Paid(Distribute(s.tasks[t].reward, WrappedWeight(winners), winners)) <= s.tasks[t].reward
    ensures NonNegative(Settle(Release(s, s.tasks[t].projectId, s.tasks[t].reward).state, t, digest, winners).Txs())
  {
    hide Placed, Shape, Sound, Covered, Minted, LockedSum;
    var p := s.tasks[t].projectId;
    var s1 := Release(s, p, s.tasks[t].reward).state;
    ReleaseLimbo(s, t);
    SettleTxs(s1, t, digest, winners);
    PayoutLedger(s, n, t, winners);
    RewardIsLocked(s, n, t);
    var shares := Distribute(s.tasks[t].reward, WrappedWeight(winners), winners);
    var after := s.Txs() + RewardTxs(ProjectAddress(p), t, shares);
    forall a: Address ensures Raw(after, a) >= 0 {
      assert Raw(s.Txs(), a) >= 0;
      if a != ProjectAddress(p) {
        RewardsAddUp(s.Txs(), ProjectAddress(p), t, shares, a);
      }
    }
  }

  lemma FinalizeNonNegative(s: NetState, n: nat, t: TaskId, digest: string, bound: nat)
    requires Limbo(s, t) && Quotas(s, n, false) && s.tasks[t].status.Open() && Mild(s, bound) && NonNegative(s.Txs())
    ensures NonNegative(Finalize(s, t, digest).state.Txs())
  {
    hide Placed, Shape, Sound, Covered, Minted, LockedSum, Raw;
    var task := s.tasks[t];
    var workers := Backers(task.reports, digest);
    ReleaseLimbo(s, t);
    RewardIsLocked(s, n, t);
    if workers == [] {
      RejectQuotas(s, n, false, t);
    } else if IsBudgetExhausted(digest) {
      if task.reward > 0 {
        CommitNonNegative(s, Burn(ProjectAddress(task.projectId), task.reward));
      }
    } else {
      var winners := Weighted(s.participants, workers);
      WinnersKnown(s, t, digest);
      PayoutBounded(s, n, t, bound, workers);
      SettleNonNegative(s, n, t, digest, winners);
    }
  }

  lemma ConcludeNonNegative(s: NetState, n: nat, t: TaskId, bound: nat)
    requires Limbo(s, t) && Quotas(s, n, false) && s.tasks[t].status.Open() && Mild(s, bound) && NonNegative(s.Txs())
    ensures NonNegative(Conclude(s, t).state.Txs())
  {
    hide Placed, Shape, Sound, Covered, Minted, LockedSum, Raw;
    var task := s.tasks[t];
    match ConsensusDigest(s.participants, task.reports, task.weightRequired)
    case Some(digest) => FinalizeNonNegative(s, n, t, digest, bound);
    case None =>
      if |task.reports| >= task.maxReports {
        RejectQuotas(s, n, false, t);
      }
  }

  lemma SubmitNonNegative(s: NetState, n: nat, w: ParticipantId, t: TaskId, digest: string, cost: u64,
      blob: Option<Blob>, bound: nat)
    requires Consistent(s) && Quotas(s, n, false) && Mild(s, bound) && s.config.reputationPenalty < HALF
    requires NonNegative(Reclaim(s).Txs()) && NonNegative(s.Txs())
    ensures NonNegative(Submit(s, w, t, digest, cost, blob).state.Txs())
  {
    hide Placed, Shape, Sound, Consistent, Covered, Raw, Minted, LockedSum, NonNegative;
    if w in s.participants {
      ReclaimQuotas(s, n, false);
      if Submit(s, w, t, digest, cost, blob).out.Ok? {
        var s1, s2 := SubmitUnfolded(s, w, t, digest, cost, blob);
        ReclaimRepute(s, bound);
        ReclaimParticipants(s);
        HeldTaskOpen(s1, t);
        SameMoneyQuotas(s1, s2, n, false);
        ConcludeNonNegative(s2, n, t, bound);
      } else {
        SubmitConsistent(s, w, t, digest, cost, blob);
      }
    }
  }

  /** The state whose due leases the operation reclaims, if it reclaims any. */
  function Reclaimed(s: NetState, op: LedgerOp): NetState {
    if op.Tick? then s.(now := SatAdd(s.now, op.n)) else s
  }

  ghost predicate Reclaims(op: LedgerOp) {
    op.Tick? || op.RequestTask? || op.SubmitResult?
  }

  lemma ReclaimedConsistent(s: NetState, op: LedgerOp)
    requires Consistent(s)
    ensures Consistent(Reclaimed(s, op))
  {
    SameTasksKept(s, Reclaimed(s, op));
  }

  lemma ApplyNonNegative(s: NetState, op: LedgerOp, n: nat, bound: nat)
    requires Consistent(s) && Quotas(s, n, false) && Mild(s, bound) && s.config.reputationPenalty < HALF
    requires NonNegative(s.Txs())
    requires Reclaims(op) ==> CanPay(Reclaimed(s, op))
    ensures NonNegative(Apply(s, op).Txs())
  {
    hide Consistent, Quotas, Mild, NonNegative, CanPay, Register, TransferBetween, Donate, NewTask, NewProject;
    hide Request, Submit, Reclaim;
    var s0 := Reclaimed(s, op);
    ReclaimedConsistent(s, op);
    if Reclaims(op) {
      ReclaimNonNegativeExactly(s0);
    }
    match op {
      case RegisterParticipant(id, name, key, balance) => RegisterNonNegative(s, id, name, Some(key), balance);
      case CreateProject(owner, name, key) => CreationKeepsLedger(s, owner, name, key, 0, 0, "");
      case TransferTokens(from, to, amount, memo) => TransferNonNegative(s, from, to, amount, memo);
      case FundProject(owner, p, amount) => DonateNonNegative(s, owner, p, amount);
      case DonateToProject(supporter, p, amount) => DonateNonNegative(s, supporter, p, amount);
      case SubmitTask(owner, p, reward, payload) => CreationKeepsLedger(s, owner, "", None, p, reward, payload);
      case RequestTask(w, _) => RequestLedger(s, w);
      case SubmitResult(w, t, digest, cost, blob) => SubmitNonNegative(s, n, w, t, digest, cost, blob, bound);
      case Tick(_) =>
    }
  }

  lemma RegisterNonNegative(s: NetState, id: ParticipantId, name: string, key: Option<Key>, balance: u64)
    requires NonNegative(s.Txs())
    ensures NonNegative(Register(s, id, name, key, balance).Txs())
  {
    hide NonNegative, Raw;
    if id !in s.participants && balance > 0 {
      CommitNonNegative(s, Mint(id, balance));
      assert Register(s, id, name, key, balance).ledger == Commit(s, [Mint(id, balance)]).ledger;
    }
  }

  lemma TransferNonNegative(s: NetState, from: ParticipantId, to: ParticipantId, amount: u64, memo: string)
    requires NonNegative(s.Txs())
    ensures NonNegative(TransferBetween(s, from, to, amount, memo).state.Txs())
  {
    hide NonNegative;
    if TransferBetween(s, from, to, amount, memo).out.Ok? {
      CommitNonNegative(s, Transfer(from, to, amount, memo));
    }
  }

  lemma CreationKeepsLedger(s: NetState, owner: ParticipantId, name: string, key: Option<Key>, p: ProjectId,
      reward: u64, payload: string)
    ensures NewProject(s, owner, name, key).state.Txs() == s.Txs()
    ensures NewTask(s, owner, p, reward, payload).state.Txs() == s.Txs()
  {}

  lemma RequestLedger(s: NetState, w: ParticipantId)
    ensures Request(s, w).state.ledger == s.ledger || Request(s, w).state.ledger == Reclaim(s).ledger
  {
    hide Reclaim, BestTask;
  }

  lemma DonateNonNegative(s: NetState, who: ParticipantId, p: ProjectId, amount: u64)
    requires NonNegative(s.Txs())
    ensures NonNegative(Donate(s, who, p, amount).state.Txs())
  {
    hide NonNegative;
    if Donate(s, who, p, amount).out.Ok? {
      CommitNonNegative(s, Transfer(who, ProjectAddress(p), amount, FundMemo(p)));
    }
  }

  /** No prefix of the log makes one worker lose two leases at once. */
  ghost predicate NeverTwoAtOnce(config: Config, ops: seq<LedgerOp>) {
    forall k :: 0 <= k < |ops| && Reclaims(ops[k]) ==> OneEach(Reclaimed(ApplyAll(Fresh(config), ops[..k]), ops[k]))
  }

  /** On such runs no account is ever overdrawn: `balance_of` is the plain fold
      of the ledger. */
  lemma {:induction false} ClampNeverActs(config: Config, ops: seq<LedgerOp>, n: nat, minted: nat, bound: nat)
    requires Fits(config, ops, n, minted, bound) && NeverTwoAtOnce(config, ops)
    ensures var s := ApplyAll(Fresh(config), ops);
      NonNegative(s.Txs()) && forall a: Address :: s.BalanceOf(a) == Raw(s.Txs(), a)
  {
    RunNonNegative(config, ops, n, minted, bound);
    ReachableQuotas(config, ops, n, minted, bound, false);
    var s := ApplyAll(Fresh(config), ops);
    forall a: Address ensures s.BalanceOf(a) == Raw(s.Txs(), a) {
      BalanceExact(s.Txs(), a);
      assert Raw(s.Txs(), a) >= 0;
    }
  }

  function SumReported(s: NetState, accounts: seq<Address>): nat {
    if accounts == [] then 0 else SumReported(s, accounts[..|accounts|-1]) + s.BalanceOf(accounts[|accounts|-1])
  }

  lemma {:induction false} ReportedIsRaw(s: NetState, accounts: seq<Address>)
    requires forall a: Address :: s.BalanceOf(a) == Raw(s.Txs(), a)
    ensures SumReported(s, accounts) == SumRaw(s.Txs(), accounts)
  {
    hide Raw;
    if accounts != [] {
      ReportedIsRaw(s, accounts[..|accounts|-1]);
    }
  }

  /** And what `balance_of` reports adds up, over all accounts in use, to what was
      minted less what was burned. */
  lemma {:induction false} BalancesAddUp(config: Config, ops: seq<LedgerOp>, n: nat, minted: nat, bound: nat,
      accounts: seq<Address>)
    requires Fits(config, ops, n, minted, bound) && NeverTwoAtOnce(config, ops)
    requires var txs := ApplyAll(Fresh(config), ops).Txs();
      Distinct(accounts) && forall i, a :: 0 <= i < |txs| && Touches(txs[i], a) ==> a in accounts
    ensures var s := ApplyAll(Fresh(config), ops);
      SumReported(s, accounts) == Minted(s.Txs()) - Burned(s.Txs())
  {
    hide Fits, NeverTwoAtOnce, ApplyAll, NonNegative, Raw, SumRaw, Minted, Burned, Touches, SumReported;
    ClampNeverActs(config, ops, n, minted, bound);
    var s := ApplyAll(Fresh(config), ops);
    ReportedIsRaw(s, accounts);
    Conservation(s.Txs(), accounts);
  }

  lemma {:induction false} RunNonNegative(config: Config, ops: seq<LedgerOp>, n: nat, minted: nat, bound: nat)
    requires Fits(config, ops, n, minted, bound) && NeverTwoAtOnce(config, ops)
    ensures NonNegative(ApplyAll(Fresh(config), ops).Txs())
  {
    hide Consistent, Quotas, Raw;
    if ops == [] {
      FreshQuotas(config, n, false);
      EmptyNonNegative();
    } else {
      var init, op := ops[..|ops|-1], ops[|ops|-1];
      FitsPrefix(config, ops, n, minted, bound);
      PrefixNeverTwo(config, ops);
      RunNonNegative(config, init, n, minted, bound);
      ReachableQuotas(config, init, n, minted, bound, false);
      var s := ApplyAll(Fresh(config), init);
      ReachableConsistent(config, init);
      if Reclaims(op) {
        assert OneEach(Reclaimed(s, op));
        OneEachCanPay(Reclaimed(s, op));
      }
      ApplyNonNegative(s, op, n, bound);
    }
  }

  lemma EmptyNonNegative()
    ensures NonNegative([])
  {}

  lemma PrefixNeverTwo(config: Config, ops: seq<LedgerOp>)
    requires ops != [] && NeverTwoAtOnce(config, ops)
    ensures NeverTwoAtOnce(config, ops[..|ops|-1])
  {
    var init := ops[..|ops|-1];
    forall k | 0 <= k < |init| && Reclaims(init[k])
      ensures OneEach(Reclaimed(ApplyAll(Fresh(config), init[..k]), init[k]))
    {
      assert init[..k] == ops[..k] && init[k] == ops[k];
    }
  }
}
