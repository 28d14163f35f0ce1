/** Exactly when the remaining balance becomes negative. */
module EscrowOverdraft {
  import opened Prelude
  import opened EscrowSpec
  import opened EscrowRuns
  import opened EscrowAccess

  /** A release by id that goes through although its amount exceeds what remains: everything a
      caller can check about the ledger beforehand. */
  predicate Overdraws(l: Ledger, c: Call) {
    && c.op.DoRelease?
    && Admitted(l, c.tx, c.op.id, c.op.kind) && Affordable(l, c.op.id)
    && l.schedules[c.op.id - 1].amount > l.program.value.remaining
  }

  predicate Solvent(l: Ledger) {
    l.program.Some? ==> l.program.value.remaining >= 0
  }

  lemma {:induction false} TriggerEachKeepsSolvent(l: Ledger, indices: seq<nat>, now: U64)
    requires l.program.Some? && Solvent(l) && InRange(l, indices) && TriggerEach(l, indices, now).Commit?
    ensures Solvent(TriggerEach(l, indices, now).state)
    decreases |indices|
  {
    if indices == [] {
    } else {
      TriggerEachKeepsSolvent(l, indices[..|indices| - 1], now);
    }
  }

  lemma BatchKeepsSolvent(l: Ledger, tx: Tx, tos: seq<Address>, amounts: seq<I128>)
    requires BatchPayout(l, tx, tos, amounts).Commit?
    ensures Solvent(BatchPayout(l, tx, tos, amounts).state)
  {
    BatchCommits(l, tx, tos, amounts);
  }

  lemma OtherKeepsSolvent(l: Ledger, c: Call)
    requires Solvent(l) && Step(l, c).Commit? && !c.op.DoBatch? && !c.op.DoTrigger? && !c.op.DoRelease?
    ensures Solvent(Next(l, c))
  {
  }

  lemma ReleaseOverdraft(l: Ledger, c: Call)
    requires Numbered(l) && Solvent(l) && c.op.DoRelease?
    ensures !Solvent(Next(l, c)) <==> Overdraws(l, c)
  {
    ReleaseOfNumbered(l, c.tx, c.op.id, c.op.kind);
  }

  lemma StepOverdraft(l: Ledger, c: Call)
    requires Inv(l) && Solvent(l)
    ensures !Solvent(Next(l, c)) <==> Overdraws(l, c)
  {
    if c.op.DoRelease? {
      ReleaseOverdraft(l, c);
    } else if Step(l, c).Commit? {
      match c.op
      case DoBatch(tos, amounts) => BatchKeepsSolvent(l, c.tx, tos, amounts);
      case DoTrigger => TriggerEachKeepsSolvent(l, Selected(l, c.tx.now), c.tx.now);
      case _ => OtherKeepsSolvent(l, c);
    }
  }

  /** Main result: from a reachable ledger whose remaining balance is not negative, a call makes it
      negative if and only if it is a release by id that passes its guards, that the contract's
      tokens can pay, and whose amount exceeds the remaining balance. */
  lemma OverdraftExact(start: Ledger, calls: seq<Call>, k: nat, c: Call)
    requires Fresh(start) && k <= |calls| && Solvent(At(start, calls, k))
    ensures !Solvent(Next(At(start, calls, k), c)) <==> Overdraws(At(start, calls, k), c)
  {
    RunKeepsInv(start, calls, k);
    StepOverdraft(At(start, calls, k), c);
  }

  /** The ledger is solvent after each of the first `n` calls. */
  predicate SolventUpTo(start: Ledger, calls: seq<Call>, n: nat)
    requires n <= |calls|
  {
    forall k :: 0 <= k <= n ==> Solvent(At(start, calls, k))
  }

  /** The first `n` calls contain no overdraft. */
  predicate NoOverdraft(start: Ledger, calls: seq<Call>, n: nat)
    requires n <= |calls|
  {
    forall k :: 0 <= k < n ==> !Overdraws(At(start, calls, k), calls[k])
  }

  lemma SolventOneMore(start: Ledger, calls: seq<Call>, n: nat)
    requires 0 < n <= |calls|
    ensures SolventUpTo(start, calls, n) <==> SolventUpTo(start, calls, n - 1) && Solvent(At(start, calls, n))
  {
  }

  lemma NoOverdraftOneMore(start: Ledger, calls: seq<Call>, n: nat)
    requires 0 < n <= |calls|
    ensures NoOverdraft(start, calls, n)
            <==> NoOverdraft(start, calls, n - 1) && !Overdraws(At(start, calls, n - 1), calls[n - 1])
  {
  }

  lemma SolventAt(start: Ledger, calls: seq<Call>, n: nat)
    requires n <= |calls| && SolventUpTo(start, calls, n)
    ensures Solvent(At(start, calls, n))
  {
  }

  lemma NextOverdraft(start: Ledger, calls: seq<Call>, n: nat)
    requires Fresh(start) && 0 < n <= |calls| && Solvent(At(start, calls, n - 1))
    ensures Solvent(At(start, calls, n)) <==> !Overdraws(At(start, calls, n - 1), calls[n - 1])
  {
    OverdraftExact(start, calls, n - 1, calls[n - 1]);
    assert At(start, calls, n) == Next(At(start, calls, n - 1), calls[n - 1]);
  }

  lemma OverdraftStep(start: Ledger, calls: seq<Call>, n: nat)
    requires Fresh(start) && 0 < n <= |calls|
    requires SolventUpTo(start, calls, n - 1) <==> NoOverdraft(start, calls, n - 1)
    ensures SolventUpTo(start, calls, n) <==> NoOverdraft(start, calls, n)
  {
    SolventOneMore(start, calls, n);
    NoOverdraftOneMore(start, calls, n);
    if SolventUpTo(start, calls, n - 1) {
      SolventAt(start, calls, n - 1);
      NextOverdraft(start, calls, n);
    }
  }

  /** Main result: the remaining balance is never negative during a run if and only if the run
      contains no such release. */
  lemma {:induction false} SolventRunsExactly(start: Ledger, calls: seq<Call>, n: nat)
    requires Fresh(start) && n <= |calls|
    ensures SolventUpTo(start, calls, n) <==> NoOverdraft(start, calls, n)
  {
    if n == 0 {
      assert Solvent(At(start, calls, 0));
    } else {
      SolventRunsExactly(start, calls, n - 1);
      OverdraftStep(start, calls, n);
    }
  }
}
