/** The parallel cap under the same interleavings. Rows in flight are counted before open reservations, so a
    row created between the two reads is counted by neither. This module proves how far the cap can then be
    overshot, which schedules keep it, and for which plans it can never be broken. */
module ParallelProtocol {
  import opened Domain
  import opened Ledger
  import opened PlanLimits
  import opened QuotaProtocol

  /* ---- The worst case over all runs ---- */

  predicate ParallelReads(t: Tables, tx: Tx, cap: int) {
    && (tx.phase.Read2? || tx.phase.Read3? || tx.phase.Read4? ==>
          2 * |ParallelIds(t, tx.user, tx.kind)| <= tx.phase.inFlight + 2 * cap + 1)
    && (tx.phase.Read4? ==> |OpenIds(t, tx.user, tx.kind)| <= tx.phase.open)
  }

  ghost predicate ParallelInv(w: World, u: Uuid, k: Kind, cap: int) {
    && Exclusive(w)
    && |ParallelIds(w.tables, u, k)| + |OpenIds(w.tables, u, k)| <= 2 * cap + 1
    && 2 * |ParallelIds(w.tables, u, k)| <= 3 * cap + 2
    && forall n :: n in w.txs && ForPair(w.txs[n], u, k) ==> ParallelReads(w.tables, w.txs[n], cap)
  }

  lemma ParallelReadsStable(t: Tables, t': Tables, tx: Tx, cap: int)
    requires ParallelReads(t, tx, cap) && Shrinks(t, t', tx.user, tx.kind)
    ensures ParallelReads(t', tx, cap)
  {
    SubsetSize(OpenIds(t', tx.user, tx.kind), OpenIds(t, tx.user, tx.kind));
    SubsetSize(ParallelIds(t', tx.user, tx.kind), ParallelIds(t, tx.user, tx.kind));
  }

  lemma OwnParallelReads(p: Plans, w: World, s: Step, cap: int)
    requires Enabled(w, s) && IsTxStep(s)
    requires s.n in w.txs ==>
               && ParallelReads(w.tables, w.txs[s.n], cap)
               && |ParallelIds(w.tables, w.txs[s.n].user, w.txs[s.n].kind)|
                  + |OpenIds(w.tables, w.txs[s.n].user, w.txs[s.n].kind)| <= 2 * cap + 1
    ensures ParallelReads(Next(p, w, s).tables, Next(p, w, s).txs[s.n], cap)
  {
    if s.n in w.txs {
      SnapshotIsExact(w.tables, w.txs[s.n].user, w.txs[s.n].kind);
    }
  }

  lemma OtherParallelReads(p: Plans, w: World, s: Step, cap: int, n: nat)
    requires Exclusive(w) && Enabled(w, s) && n in w.txs && (IsTxStep(s) ==> n != s.n)
             && ParallelReads(w.tables, w.txs[n], cap)
    ensures ParallelReads(Next(p, w, s).tables, w.txs[n], cap)
  {
    var u, k := w.txs[n].user, w.txs[n].kind;
    if GrantsNow(p, w, s, u, k) {
      GrantExcludes(p, w, s, u, k, n);
    } else {
      StepShrinks(p, w, s, u, k);
      ParallelReadsStable(w.tables, Next(p, w, s).tables, w.txs[n], cap);
    }
  }

  /** A grant adds one scan; what it read bounds how many were there. */
  lemma GrantOvershoot(p: Plans, w: World, s: Step, u: Uuid, k: Kind)
    requires Enabled(w, s) && GrantsNow(p, w, s, u, k) && ParallelReads(w.tables, w.txs[s.n], ParallelCap(p(u, k)))
    ensures var t', cap := Next(p, w, s).tables, ParallelCap(p(u, k));
            && |ParallelIds(t', u, k)| + |OpenIds(t', u, k)| <= 2 * cap + 1
            && 2 * |ParallelIds(t', u, k)| <= 3 * cap + 2
  {
    TxStepTables(p, w, s, u, k);
    SubsetSize(OpenIds(Next(p, w, s).tables, u, k), OpenIds(w.tables, u, k) + {w.txs[s.n].scan});
    SubsetSize(ParallelIds(Next(p, w, s).tables, u, k), ParallelIds(w.tables, u, k) + {w.txs[s.n].scan});
  }

  lemma ParallelStaysBounded(p: Plans, w: World, s: Step, u: Uuid, k: Kind)
    requires ParallelInv(w, u, k, ParallelCap(p(u, k))) && Enabled(w, s)
    ensures var t', cap := Next(p, w, s).tables, ParallelCap(p(u, k));
            && |ParallelIds(t', u, k)| + |OpenIds(t', u, k)| <= 2 * cap + 1
            && 2 * |ParallelIds(t', u, k)| <= 3 * cap + 2
  {
    if GrantsNow(p, w, s, u, k) {
      GrantOvershoot(p, w, s, u, k);
    } else {
      StepShrinks(p, w, s, u, k);
      SubsetSize(OpenIds(Next(p, w, s).tables, u, k), OpenIds(w.tables, u, k));
      SubsetSize(ParallelIds(Next(p, w, s).tables, u, k), ParallelIds(w.tables, u, k));
    }
  }

  lemma ParallelReadsKept(p: Plans, w: World, s: Step, u: Uuid, k: Kind, cap: int, n: nat)
    requires ParallelInv(w, u, k, cap) && Enabled(w, s)
    requires n in Next(p, w, s).txs && ForPair(Next(p, w, s).txs[n], u, k)
    ensures ParallelReads(Next(p, w, s).tables, Next(p, w, s).txs[n], cap)
  {
    TxFrame(p, w, s, n);
    if IsTxStep(s) && n == s.n {
      OwnParallelReads(p, w, s, cap);
    } else {
      OtherParallelReads(p, w, s, cap, n);
    }
  }

  lemma ParallelStep(p: Plans, w: World, s: Step, u: Uuid, k: Kind)
    requires ParallelInv(w, u, k, ParallelCap(p(u, k))) && Enabled(w, s)
    ensures ParallelInv(Next(p, w, s), u, k, ParallelCap(p(u, k)))
  {
    ExclusiveStep(p, w, s);
    ParallelStaysBounded(p, w, s, u, k);
    forall n | n in Next(p, w, s).txs && ForPair(Next(p, w, s).txs[n], u, k)
      ensures ParallelReads(Next(p, w, s).tables, Next(p, w, s).txs[n], ParallelCap(p(u, k)))
    {
      ParallelReadsKept(p, w, s, u, k, ParallelCap(p(u, k)), n);
    }
  }

  /** No schedule at all gets past one and a half times the cap, plus one: at most five scans for a cap of three. */
  lemma {:induction false} OvershootIsBounded(p: Plans, w: World, steps: seq<Step>, u: Uuid, k: Kind)
    requires ParallelInv(w, u, k, ParallelCap(p(u, k))) && Run(p, w, steps)
    ensures 2 * |ParallelIds(Final(p, w, steps).tables, u, k)| <= 3 * ParallelCap(p(u, k)) + 2
    decreases |steps|
  {
    if steps != [] {
      ParallelStep(p, w, steps[0], u, k);
      OvershootIsBounded(p, Next(p, w, steps[0]), steps[1..], u, k);
    }
  }

  /** A quiet start within the cap satisfies the invariant. */
  lemma QuietStart(w: World, u: Uuid, k: Kind, cap: int)
    requires Quiet(w) && |ParallelIds(w.tables, u, k)| <= cap
    ensures ParallelInv(w, u, k, cap) && GapInv(w, u, k, cap)
  {
    SubsetSize(OpenIds(w.tables, u, k), ParallelIds(w.tables, u, k));
  }

  /* ---- Schedules that keep the cap ---- */

  /** No row of the pair is created while one of its reservations is between the two reads. */
  predicate GapFree(w: World, s: Step, u: Uuid, k: Kind) {
    CreatesRowOf(w, s, u, k) ==>
      forall n :: n in w.txs && ForPair(w.txs[n], u, k) ==> !w.txs[n].phase.Read2? && !w.txs[n].phase.Read3?
  }

  ghost predicate GapFreeRun(p: Plans, w: World, steps: seq<Step>, u: Uuid, k: Kind)
    requires Run(p, w, steps)
    decreases |steps|
  {
    steps == [] || (GapFree(w, steps[0], u, k) && GapFreeRun(p, Next(p, w, steps[0]), steps[1..], u, k))
  }

  predicate GapReads(t: Tables, tx: Tx) {
    && (tx.phase.Read2? || tx.phase.Read3? ==> |InFlightIds(t, tx.user, tx.kind)| <= tx.phase.inFlight)
    && (tx.phase.Read4? ==> |ParallelIds(t, tx.user, tx.kind)| <= tx.phase.inFlight + tx.phase.open)
  }

  ghost predicate GapInv(w: World, u: Uuid, k: Kind, bound: int) {
    && Exclusive(w)
    && |ParallelIds(w.tables, u, k)| <= bound
    && forall n :: n in w.txs && ForPair(w.txs[n], u, k) ==> GapReads(w.tables, w.txs[n])
  }

  lemma OwnGapReads(p: Plans, w: World, s: Step)
    requires Enabled(w, s) && IsTxStep(s)
    requires s.n in w.txs ==> GapReads(w.tables, w.txs[s.n])
    ensures GapReads(Next(p, w, s).tables, Next(p, w, s).txs[s.n])
  {
    if s.n in w.txs {
      SnapshotIsExact(w.tables, w.txs[s.n].user, w.txs[s.n].kind);
    }
  }

  lemma OtherGapReads(p: Plans, w: World, s: Step, u: Uuid, k: Kind, n: nat)
    requires Exclusive(w) && Enabled(w, s) && GapFree(w, s, u, k)
    requires n in w.txs && (IsTxStep(s) ==> n != s.n) && ForPair(w.txs[n], u, k) && GapReads(w.tables, w.txs[n])
    ensures GapReads(Next(p, w, s).tables, w.txs[n])
  {
    var t, t' := w.tables, Next(p, w, s).tables;
    if GrantsNow(p, w, s, u, k) {
      GrantExcludes(p, w, s, u, k, n);
    } else {
      StepShrinks(p, w, s, u, k);
      SubsetSize(ParallelIds(t', u, k), ParallelIds(t, u, k));
      if !CreatesRowOf(w, s, u, k) {
        if IsTxStep(s) { TxStepTables(p, w, s, u, k); } else { EnvironmentShrinks(p, w, s, u, k); }
        SubsetSize(InFlightIds(t', u, k), InFlightIds(t, u, k));
      }
    }
  }

  lemma GapStaysBounded(p: Plans, w: World, s: Step, u: Uuid, k: Kind, bound: int)
    requires GapInv(w, u, k, bound) && Enabled(w, s) && ParallelCap(p(u, k)) <= bound
    ensures |ParallelIds(Next(p, w, s).tables, u, k)| <= bound
  {
    var t' := Next(p, w, s).tables;
    if GrantsNow(p, w, s, u, k) {
      TxStepTables(p, w, s, u, k);
      SubsetSize(ParallelIds(t', u, k), ParallelIds(w.tables, u, k) + {w.txs[s.n].scan});
    } else {
      StepShrinks(p, w, s, u, k);
      SubsetSize(ParallelIds(t', u, k), ParallelIds(w.tables, u, k));
    }
  }

  lemma GapReadsKept(p: Plans, w: World, s: Step, u: Uuid, k: Kind, bound: int, n: nat)
    requires GapInv(w, u, k, bound) && Enabled(w, s) && GapFree(w, s, u, k)
    requires n in Next(p, w, s).txs && ForPair(Next(p, w, s).txs[n], u, k)
    ensures GapReads(Next(p, w, s).tables, Next(p, w, s).txs[n])
  {
    TxFrame(p, w, s, n);
    if IsTxStep(s) && n == s.n {
      OwnGapReads(p, w, s);
    } else {
      OtherGapReads(p, w, s, u, k, n);
    }
  }

  lemma GapStep(p: Plans, w: World, s: Step, u: Uuid, k: Kind, bound: int)
    requires GapInv(w, u, k, bound) && Enabled(w, s) && GapFree(w, s, u, k) && ParallelCap(p(u, k)) <= bound
    ensures GapInv(Next(p, w, s), u, k, bound)
  {
    ExclusiveStep(p, w, s);
    GapStaysBounded(p, w, s, u, k, bound);
    forall n | n in Next(p, w, s).txs && ForPair(Next(p, w, s).txs[n], u, k)
      ensures GapReads(Next(p, w, s).tables, Next(p, w, s).txs[n])
    {
      GapReadsKept(p, w, s, u, k, bound, n);
    }
  }

  /** Every run without such a row creation keeps the cap; a transaction run as one step is the special case. */
  lemma {:induction false} GapFreeRunsKeepTheCap(p: Plans, w: World, steps: seq<Step>, u: Uuid, k: Kind, bound: int)
    requires GapInv(w, u, k, bound) && Run(p, w, steps) && GapFreeRun(p, w, steps, u, k)
             && ParallelCap(p(u, k)) <= bound
    ensures |ParallelIds(Final(p, w, steps).tables, u, k)| <= bound
    decreases |steps|
  {
    if steps != [] {
      GapStep(p, w, steps[0], u, k, bound);
      GapFreeRunsKeepTheCap(p, Next(p, w, steps[0]), steps[1..], u, k, bound);
    }
  }
}
