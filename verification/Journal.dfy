/** What the operations write into the ledger: memos that name their subject, and nothing
    without effect. */
module Journal {
  import opened Words
  import opened Sequences
  import opened Ledger
  import opened Model
  import opened Reward
  import opened NetworkSpec
  import opened Effects

  // ---------------------------------------------------------------------- memos

  function Value(digits: string): nat {
    if digits == [] then 0
    else
      var c := digits[|digits|-1];
      10 * Value(digits[..|digits|-1]) + if '0' <= c <= '9' then c as int - '0' as int else 0
  }

  lemma DigitReadsBack(d: nat)
    requires d < 10
    ensures var c := "0123456789"[d]; '0' <= c <= '9' && c as int - '0' as int == d
  {}

  lemma {:induction false} OneMoreDigit(digits: string, d: nat)
    requires d < 10
    ensures Value(digits + ["0123456789"[d]]) == 10 * Value(digits) + d
  {
    DigitReadsBack(d);
    assert (digits + ["0123456789"[d]])[..|digits|] == digits;
  }

  /** A memo names its project or task: the digits read back as the number. */
  lemma {:induction false} DecimalReadsBack(n: nat)
    ensures Value(Decimal(n)) == n && Decimal(n) != []
    ensures forall c :: c in Decimal(n) ==> '0' <= c <= '9'
  {
    hide Value;
    DigitReadsBack(n % 10);
    if n < 10 {
      assert [] + ["0123456789"[n]] == ["0123456789"[n]];
      OneMoreDigit([], n);
      NoDigits();
    } else {
      DecimalReadsBack(n / 10);
      OneMoreDigit(Decimal(n / 10), n % 10);
    }
  }

  lemma NoDigits()
    ensures Value([]) == 0
  {}

  lemma {:induction false} MemosNameTheirSubject(id: nat)
    ensures FundMemo(id) == "fund:project=" + Decimal(id) && RewardMemo(id) == "reward:task=" + Decimal(id)
    ensures Value(FundMemo(id)[13..]) == id && Value(RewardMemo(id)[12..]) == id
  {
    DecimalReadsBack(id);
    assert ("fund:project=" + Decimal(id))[13..] == Decimal(id);
    assert ("reward:task=" + Decimal(id))[12..] == Decimal(id);
  }

  // -------------------------------------------------------------- what is recorded

  function AmountOf(tx: Transaction): u64 { tx.amount }

  /** Something moves in every transaction. */
  ghost predicate AllMove(txs: seq<Transaction>) {
    forall i :: 0 <= i < |txs| ==> AmountOf(txs[i]) > 0
  }

  /** The ledger only gained entries in which something is recorded, and everything
      recorded moves tokens. */
  ghost predicate Records(s: NetState, r: NetState) {
    s.ledger <= r.ledger && forall i :: |s.ledger| <= i < |r.ledger| ==> Solid(r.ledger[i])
  }

  ghost predicate Solid(entry: Entry) {
    entry.transactions != [] && AllMove(entry.transactions)
  }

  lemma RecordsOn(s: NetState, m: NetState, r: NetState)
    requires Records(s, m) && Records(m, r)
    ensures Records(s, r)
  {}

  lemma RecordsNothing(s: NetState, r: NetState)
    requires r.ledger == s.ledger
    ensures Records(s, r)
  {}

  lemma CommitRecords(s: NetState, r: NetState, txs: seq<Transaction>)
    requires r.ledger == s.ledger || (r.ledger == Commit(s, txs).ledger && txs != [] && AllMove(txs))
    ensures Records(s, r)
  {}

  lemma {:induction false} SlashesMove(s: NetState, ids: seq<TaskId>)
    ensures AllMove(Slashes(s, ids))
  {
    hide ReclaimAll, Balance;
    if ids != [] {
      SlashesMove(s, ids[..|ids|-1]);
    }
  }

  lemma {:induction false} RewardsMove(from: Address, t: TaskId, shares: seq<Share>)
    ensures AllMove(RewardTxs(from, t, shares))
  {
    hide RewardMemo;
    if shares != [] {
      RewardsMove(from, t, shares[..|shares|-1]);
    }
  }

  lemma ReclaimRecords(s: NetState)
    ensures Records(s, Reclaim(s))
  {
    hide ReclaimAll, Slashes, ExpiredIds, AllMove, Records;
    var ids := ExpiredIds(s);
    ReclaimAllCarries(s, ids);
    SlashesMove(s, ids);
    CommitRecords(s, Reclaim(s), Slashes(s, ids));
  }

  lemma RejectRecords(s: NetState, t: TaskId)
    ensures Reject(s, t).state.ledger == s.ledger
  {
    hide AdjustEach;
  }

  lemma FinalizeRecords(s: NetState, t: TaskId, digest: string)
    ensures Records(s, Finalize(s, t, digest).state)
  {
    hide Reject, Records, AllMove, AdjustEach, Distribute, RewardTxs, Weighted, WrappedWeight, IsBudgetExhausted;
    RejectRecords(s, t);
    var r := Finalize(s, t, digest).state;
    if t in s.tasks {
      var task := s.tasks[t];
      var s1 := Release(s, task.projectId, task.reward).state;
      RejectRecords(s1, t);
      var winners := Weighted(s.participants, Backers(task.reports, digest));
      if r.ledger == s.ledger {
        RecordsNothing(s, r);
      } else if IsBudgetExhausted(digest) {
        BurnMoves(ProjectAddress(task.projectId), task.reward);
        CommitRecords(s, r, [Burn(ProjectAddress(task.projectId), task.reward)]);
      } else {
        var shares := Distribute(task.reward, WrappedWeight(winners), winners);
        RewardsMove(ProjectAddress(task.projectId), t, shares);
        CommitRecords(s, r, RewardTxs(ProjectAddress(task.projectId), t, shares));
      }
    } else {
      RecordsNothing(s, r);
    }
  }

  lemma BurnMoves(from: Address, amount: u64)
    ensures amount > 0 ==> AllMove([Burn(from, amount)])
  {}

  lemma SubmitRecords(s: NetState, w: ParticipantId, t: TaskId, digest: string, cost: u64, blob: Option<Blob>)
    ensures Records(s, Submit(s, w, t, digest, cost, blob).state)
  {
    hide Records, Reclaim, Finalize, Reject, ConsensusDigest;
    RecordsNothing(s, s);
    if w in s.participants {
      var s1 := Reclaim(s);
      var r := Submit(s, w, t, digest, cost, blob).state;
      ReclaimRecords(s);
      if t in s1.leases && s1.leases[t].workerId == w && t in s1.tasks {
        var s2 := Report(s1, w, t, TaskReport(w, digest, cost, blob));
        RejectRecords(s2, t);
        match ConsensusDigest(s2.participants, s2.tasks[t].reports, s2.tasks[t].weightRequired) {
          case Some(agreed) =>
            FinalizeRecords(s2, t, agreed);
            RecordsNothing(s1, s2);
            RecordsOn(s, s1, s2);
            RecordsOn(s, s2, r);
          case None =>
            RecordsNothing(s1, r);
            RecordsOn(s, s1, r);
        }
      } else {
        RecordsNothing(s1, r);
        RecordsOn(s, s1, r);
      }
    }
  }

  /** Slashes, rewards, burns and mints of nothing are not recorded, nor empty entries; only
      a transfer or a donation may be of zero tokens, if somebody asks for that. */
  lemma NothingEmptyRecorded(s: NetState, op: LedgerOp)
    requires (op.TransferTokens? || op.FundProject? || op.DonateToProject?) ==> op.amount > 0
    ensures Records(s, Apply(s, op))
  {
    hide Reclaim, Submit, Balance, FundMemo, BestTask, Records, AllMove;
    var r := Apply(s, op);
    match op {
      case SubmitResult(w, t, digest, cost, blob) => SubmitRecords(s, w, t, digest, cost, blob);
      case RequestTask(w, _) =>
        RecordsNothing(s, s);
        if w in s.participants {
          ReclaimRecords(s);
          RecordsNothing(Reclaim(s), r);
          RecordsOn(s, Reclaim(s), r);
        }
      case Tick(n) =>
        var later := s.(now := SatAdd(s.now, n));
        ReclaimRecords(later);
        RecordsNothing(s, later);
        RecordsOn(s, later, r);
      case RegisterParticipant(id, _, _, balance) =>
        if balance > 0 { OneRecorded(s, r, Mint(id, balance)); } else { RecordsNothing(s, r); }
      case TransferTokens(from, to, amount, memo) => OneRecorded(s, r, Transfer(from, to, amount, memo));
      case FundProject(who, p, amount) => OneRecorded(s, r, Transfer(who, ProjectAddress(p), amount, FundMemo(p)));
      case DonateToProject(who, p, amount) => OneRecorded(s, r, Transfer(who, ProjectAddress(p), amount, FundMemo(p)));
      case _ => RecordsNothing(s, r);
    }
  }

  lemma OneRecorded(s: NetState, r: NetState, tx: Transaction)
    requires r.ledger == s.ledger || r.ledger == Commit(s, [tx]).ledger
    requires tx.amount > 0
    ensures Records(s, r)
  {}
}
