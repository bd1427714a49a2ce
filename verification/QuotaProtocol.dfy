/** Reservations as they really interleave. `ReserveScanUsage` takes the advisory lock of its user and kind,
    reads four counts one statement at a time, then inserts and commits. The lock keeps out other
    reservations of the same pair only: releases, row creation, state changes and soft deletes run between
    any two reads. */
module QuotaProtocol {
  import opened Domain
  import opened Ledger
  import opened PlanLimits
  import LockKey

  /** The scan limit of each user and kind, fixed during a run. */
  type Plans = (Uuid, Kind) -> int

  datatype Phase =
    | Waiting
    | Locked
    | Read1(ledger: nat)
    | Read2(ledger: nat, inFlight: nat)
    | Read3(ledger: nat, inFlight: nat, extra: nat)
    | Read4(ledger: nat, inFlight: nat, extra: nat, open: nat)
    | Done(granted: bool)

  datatype Tx = Tx(user: Uuid, kind: Kind, scan: ScanId, phase: Phase)

  datatype World = World(tables: Tables, txs: map<nat, Tx>)

  predicate Holds(tx: Tx) {
    !tx.phase.Waiting? && !tx.phase.Done?
  }

  predicate ForPair(tx: Tx, u: Uuid, k: Kind) {
    tx.user == u && tx.kind == k
  }

  datatype Step =
    | Begin(n: nat, user: Uuid, kind: Kind, scan: ScanId)
    | Acquire(n: nat)
    | ReadLedger(n: nat)
    | ReadInFlight(n: nat)
    | ReadExtra(n: nat)
    | ReadOpen(n: nat)
    | Commit(n: nat)
    | Abort(n: nat)
    | Release(id: ScanId)
    | CreateRow(id: ScanId, state: ScanState)
    | CreateCatalogRow(id: ScanId, state: ScanState)
    | Advance(rowKind: Kind, id: ScanId, state: ScanState)
    | SoftDelete(rowKind: Kind, id: ScanId)

  predicate IsTxStep(s: Step) {
    s.Begin? || s.Acquire? || s.ReadLedger? || s.ReadInFlight? || s.ReadExtra? || s.ReadOpen? || s.Commit? || s.Abort?
  }

  predicate Free(w: World, n: nat)
    requires n in w.txs
  {
    forall m :: m in w.txs && m != n && Holds(w.txs[m]) ==>
                  LockKey.Key(w.txs[m].user, w.txs[m].kind) != LockKey.Key(w.txs[n].user, w.txs[n].kind)
  }

  /** When a step may happen. The environment creates a row only for a reserved id and moves a live row
      along `ValidTransition`; everything else it does is unrestricted here. */
  predicate Enabled(w: World, s: Step) {
    match s
    case Begin(n, _, kind, scan) => n !in w.txs && !kind.Unsupported? && scan != NIL_SCAN
    case Acquire(n) => n in w.txs && w.txs[n].phase.Waiting? && Free(w, n)
    case ReadLedger(n) => n in w.txs && w.txs[n].phase.Locked?
    case ReadInFlight(n) => n in w.txs && w.txs[n].phase.Read1?
    case ReadExtra(n) => n in w.txs && w.txs[n].phase.Read2?
    case ReadOpen(n) => n in w.txs && w.txs[n].phase.Read3?
    case Commit(n) => n in w.txs && w.txs[n].phase.Read4?
    case Abort(n) => n in w.txs && !w.txs[n].phase.Done?
    case Release(_) => true
    case CreateRow(id, _) => id in w.tables.events && id !in Rows(w.tables, w.tables.events[id].kind)
    case CreateCatalogRow(id, _) => id !in w.tables.endpoints
    case Advance(kind, id, state) =>
      && id in Rows(w.tables, kind) && !Rows(w.tables, kind)[id].deleted
      && ValidTransition(Rows(w.tables, kind)[id].state, state)
    case SoftDelete(kind, id) => id in Rows(w.tables, kind)
  }

  function PutRow(t: Tables, k: Kind, id: ScanId, row: Row): Tables {
    match k
    case Wallet => t.(wallets := t.wallets[id := row])
    case Endpoint => t.(endpoints := t.endpoints[id := row])
    case Unsupported => t
  }

  /** The decision at commit time, from what was read. */
  predicate Grants(p: Plans, tx: Tx)
    requires tx.phase.Read4?
  {
    Verdict(Snapshot(tx.phase.ledger, tx.phase.extra, tx.phase.inFlight + tx.phase.open),
            p(tx.user, tx.kind), ParallelCap(p(tx.user, tx.kind))).Allowed?
  }

  function Phased(w: World, n: nat, phase: Phase): World
    requires n in w.txs
  {
    w.(txs := w.txs[n := w.txs[n].(phase := phase)])
  }

  function Next(p: Plans, w: World, s: Step): World
    requires Enabled(w, s)
  {
    var t := w.tables;
    match s
    case Begin(n, user, kind, scan) => w.(txs := w.txs[n := Tx(user, kind, scan, Waiting)])
    case Acquire(n) => Phased(w, n, Locked)
    case ReadLedger(n) =>
      Phased(w, n, Read1(|LedgerIds(t, w.txs[n].user, w.txs[n].kind)|))
    case ReadInFlight(n) =>
      Phased(w, n, Read2(w.txs[n].phase.ledger, |InFlightIds(t, w.txs[n].user, w.txs[n].kind)|))
    case ReadExtra(n) =>
      Phased(w, n, Read3(w.txs[n].phase.ledger, w.txs[n].phase.inFlight, |ExtraIds(t, w.txs[n].user, w.txs[n].kind)|))
    case ReadOpen(n) =>
      Phased(w, n, Read4(w.txs[n].phase.ledger, w.txs[n].phase.inFlight, w.txs[n].phase.extra,
                         |OpenIds(t, w.txs[n].user, w.txs[n].kind)|))
    case Commit(n) =>
      var tx := w.txs[n];
      if Grants(p, tx) then Phased(w, n, Done(true)).(tables := Record(t, tx.user, tx.scan, tx.kind))
      else Phased(w, n, Done(false))
    case Abort(n) => Phased(w, n, Done(false))
    case Release(id) => w.(tables := t.(events := t.events - {id}))
    case CreateRow(id, state) =>
      w.(tables := PutRow(t, t.events[id].kind, id, Row(Some(t.events[id].user), state, false, false)))
    case CreateCatalogRow(id, state) => w.(tables := PutRow(t, Endpoint, id, Row(None, state, false, true)))
    case Advance(kind, id, state) => w.(tables := PutRow(t, kind, id, Rows(t, kind)[id].(state := state)))
    case SoftDelete(kind, id) => w.(tables := PutRow(t, kind, id, Rows(t, kind)[id].(deleted := true)))
  }

  ghost predicate Run(p: Plans, w: World, steps: seq<Step>)
    decreases |steps|
  {
    steps == [] || (Enabled(w, steps[0]) && Run(p, Next(p, w, steps[0]), steps[1..]))
  }

  ghost function Final(p: Plans, w: World, steps: seq<Step>): World
    requires Run(p, w, steps)
    decreases |steps|
  {
    if steps == [] then w else Final(p, Next(p, w, steps[0]), steps[1..])
  }

  /** No reservation is under way. */
  predicate Quiet(w: World) {
    forall n :: n in w.txs ==> w.txs[n].phase.Done?
  }

  /* ---- What every step does to the id sets of a pair ---- */

  ghost predicate Shrinks(t: Tables, t': Tables, u: Uuid, k: Kind) {
    && LedgerIds(t', u, k) <= LedgerIds(t, u, k)
    && UsedIds(t', u, k) <= UsedIds(t, u, k)
    && OpenIds(t', u, k) <= OpenIds(t, u, k)
    && ParallelIds(t', u, k) <= ParallelIds(t, u, k)
  }

  /** Creating the row of a reserved scan of this pair, the one step that adds to the rows in flight. */
  predicate CreatesRowOf(w: World, s: Step, u: Uuid, k: Kind) {
    s.CreateRow? && s.id in w.tables.events && w.tables.events[s.id] == Usage(u, k)
  }

  /** Replacing the row of `id` cannot add to any set as long as a row that becomes visible in flight either was
      visible in flight or belongs to an open reservation of its owner. */
  lemma PutRowShrinks(t: Tables, l: Kind, id: ScanId, row: Row, u: Uuid, k: Kind)
    requires Visible(row, u, k) && InFlight(row.state) && l == k ==>
             id in InFlightIds(t, u, k) || id in OpenIds(t, u, k)
    ensures Shrinks(t, PutRow(t, l, id, row), u, k)
    ensures (Visible(row, u, k) && InFlight(row.state) && l == k ==> id in InFlightIds(t, u, k)) ==>
              InFlightIds(PutRow(t, l, id, row), u, k) <= InFlightIds(t, u, k)
  {
  }

  lemma EnvironmentShrinks(p: Plans, w: World, s: Step, u: Uuid, k: Kind)
    requires Enabled(w, s) && !IsTxStep(s)
    ensures Next(p, w, s).txs == w.txs
    ensures Shrinks(w.tables, Next(p, w, s).tables, u, k)
    ensures !CreatesRowOf(w, s, u, k) ==> InFlightIds(Next(p, w, s).tables, u, k) <= InFlightIds(w.tables, u, k)
  {
    var t := w.tables;
    match s
    case Release(id) =>
    case CreateRow(id, state) =>
      PutRowShrinks(t, t.events[id].kind, id, Row(Some(t.events[id].user), state, false, false), u, k);
    case CreateCatalogRow(id, state) => PutRowShrinks(t, Endpoint, id, Row(None, state, false, true), u, k);
    case Advance(l, id, state) => PutRowShrinks(t, l, id, Rows(t, l)[id].(state := state), u, k);
    case SoftDelete(l, id) => PutRowShrinks(t, l, id, Rows(t, l)[id].(deleted := true), u, k);
    case _ =>
  }

  /** A transaction step leaves the tables alone, except a granting commit, which records one id. */
  lemma TxStepTables(p: Plans, w: World, s: Step, u: Uuid, k: Kind)
    requires Enabled(w, s) && IsTxStep(s)
    ensures var t, t' := w.tables, Next(p, w, s).tables;
            if s.Commit? && ForPair(w.txs[s.n], u, k) && Grants(p, w.txs[s.n]) then
              && UsedIds(t', u, k) <= UsedIds(t, u, k) + {w.txs[s.n].scan}
              && OpenIds(t', u, k) <= OpenIds(t, u, k) + {w.txs[s.n].scan}
              && ParallelIds(t', u, k) <= ParallelIds(t, u, k) + {w.txs[s.n].scan}
            else Shrinks(t, t', u, k) && InFlightIds(t', u, k) == InFlightIds(t, u, k)
  {
  }

  /** A step touches at most its own transaction, and never changes whom that one is for. */
  lemma TxFrame(p: Plans, w: World, s: Step, n: nat)
    requires Enabled(w, s) && n in Next(p, w, s).txs
    ensures (IsTxStep(s) ==> n != s.n) ==> n in w.txs && Next(p, w, s).txs[n] == w.txs[n]
    ensures n in w.txs ==> ForPair(w.txs[n], Next(p, w, s).txs[n].user, Next(p, w, s).txs[n].kind)
  {
  }

  /* ---- The lock ---- */

  ghost predicate Exclusive(w: World) {
    forall m, n :: m in w.txs && n in w.txs && m != n && Holds(w.txs[m]) && Holds(w.txs[n]) ==>
                     !ForPair(w.txs[m], w.txs[n].user, w.txs[n].kind)
  }

  lemma ExclusiveStep(p: Plans, w: World, s: Step)
    requires Exclusive(w) && Enabled(w, s)
    ensures Exclusive(Next(p, w, s))
  {
  }

  /* ---- The quota bound ---- */

  /** What a reservation of the pair knows about the present from what it has read. */
  predicate QuotaReads(t: Tables, tx: Tx) {
    && (!tx.phase.Waiting? && !tx.phase.Done? && !tx.phase.Locked? ==>
        |LedgerIds(t, tx.user, tx.kind)| <= tx.phase.ledger)
    && (tx.phase.Read3? || tx.phase.Read4? ==> |UsedIds(t, tx.user, tx.kind)| <= tx.phase.ledger + tx.phase.extra)
  }

  ghost predicate QuotaInv(w: World, u: Uuid, k: Kind, bound: int) {
    && Exclusive(w)
    && |UsedIds(w.tables, u, k)| <= bound
    && forall n :: n in w.txs && ForPair(w.txs[n], u, k) ==> QuotaReads(w.tables, w.txs[n])
  }

  lemma QuotaReadsStable(t: Tables, t': Tables, tx: Tx)
    requires QuotaReads(t, tx) && Shrinks(t, t', tx.user, tx.kind)
    ensures QuotaReads(t', tx)
  {
    SubsetSize(LedgerIds(t', tx.user, tx.kind), LedgerIds(t, tx.user, tx.kind));
    SubsetSize(UsedIds(t', tx.user, tx.kind), UsedIds(t, tx.user, tx.kind));
  }

  /** A transaction's own step keeps what it knows: the ledger and the used set cannot have grown. */
  lemma OwnQuotaReads(p: Plans, w: World, s: Step)
    requires Enabled(w, s) && IsTxStep(s)
    requires s.n in w.txs ==> QuotaReads(w.tables, w.txs[s.n])
    ensures var w' := Next(p, w, s); w'.tables == w.tables ==> QuotaReads(w'.tables, w'.txs[s.n])
    ensures s.Commit? ==> QuotaReads(Next(p, w, s).tables, Next(p, w, s).txs[s.n])
  {
    if s.n in w.txs {
      SnapshotIsExact(w.tables, w.txs[s.n].user, w.txs[s.n].kind);
    }
  }

  ghost predicate GrantsNow(p: Plans, w: World, s: Step, u: Uuid, k: Kind)
    requires Enabled(w, s)
  {
    s.Commit? && ForPair(w.txs[s.n], u, k) && Grants(p, w.txs[s.n])
  }

  /** A granting commit has room: the used set is still below the limit when the row is inserted. */
  lemma GrantHasRoom(p: Plans, w: World, s: Step, u: Uuid, k: Kind)
    requires Enabled(w, s) && GrantsNow(p, w, s, u, k) && QuotaReads(w.tables, w.txs[s.n]) && 0 < p(u, k)
    ensures |UsedIds(Next(p, w, s).tables, u, k)| <= p(u, k)
  {
    TxStepTables(p, w, s, u, k);
    SubsetSize(UsedIds(Next(p, w, s).tables, u, k), UsedIds(w.tables, u, k) + {w.txs[s.n].scan});
  }

  lemma StepShrinks(p: Plans, w: World, s: Step, u: Uuid, k: Kind)
    requires Enabled(w, s) && !GrantsNow(p, w, s, u, k)
    ensures Shrinks(w.tables, Next(p, w, s).tables, u, k)
  {
    if IsTxStep(s) {
      TxStepTables(p, w, s, u, k);
    } else {
      EnvironmentShrinks(p, w, s, u, k);
    }
  }

  lemma GrantExcludes(p: Plans, w: World, s: Step, u: Uuid, k: Kind, n: nat)
    requires Exclusive(w) && Enabled(w, s) && GrantsNow(p, w, s, u, k)
    requires n in w.txs && n != s.n && ForPair(w.txs[n], u, k)
    ensures w.txs[n].phase.Waiting? || w.txs[n].phase.Done?
  {
    assert Holds(w.txs[s.n]);
  }

  /** The other reservations of the pair: a grant cannot meet one that has started reading. */
  lemma OtherQuotaReads(p: Plans, w: World, s: Step, n: nat)
    requires Exclusive(w) && Enabled(w, s) && n in w.txs && (IsTxStep(s) ==> n != s.n) && QuotaReads(w.tables, w.txs[n])
    ensures QuotaReads(Next(p, w, s).tables, w.txs[n])
  {
    var u, k := w.txs[n].user, w.txs[n].kind;
    if GrantsNow(p, w, s, u, k) {
      GrantExcludes(p, w, s, u, k, n);
    } else {
      StepShrinks(p, w, s, u, k);
      QuotaReadsStable(w.tables, Next(p, w, s).tables, w.txs[n]);
    }
  }

  lemma UsedStaysBounded(p: Plans, w: World, s: Step, u: Uuid, k: Kind, bound: int)
    requires QuotaInv(w, u, k, bound) && Enabled(w, s) && 0 < p(u, k) <= bound
    ensures |UsedIds(Next(p, w, s).tables, u, k)| <= bound
  {
    if GrantsNow(p, w, s, u, k) {
      GrantHasRoom(p, w, s, u, k);
    } else {
      StepShrinks(p, w, s, u, k);
      SubsetSize(UsedIds(Next(p, w, s).tables, u, k), UsedIds(w.tables, u, k));
    }
  }

  lemma QuotaReadsKept(p: Plans, w: World, s: Step, u: Uuid, k: Kind, bound: int, n: nat)
    requires QuotaInv(w, u, k, bound) && Enabled(w, s)
    requires n in Next(p, w, s).txs && ForPair(Next(p, w, s).txs[n], u, k)
    ensures QuotaReads(Next(p, w, s).tables, Next(p, w, s).txs[n])
  {
    TxFrame(p, w, s, n);
    if IsTxStep(s) && n == s.n {
      OwnQuotaReads(p, w, s);
    } else {
      OtherQuotaReads(p, w, s, n);
    }
  }

  lemma QuotaStep(p: Plans, w: World, s: Step, u: Uuid, k: Kind, bound: int)
    requires QuotaInv(w, u, k, bound) && Enabled(w, s) && 0 < p(u, k) <= bound
    ensures QuotaInv(Next(p, w, s), u, k, bound)
  {
    ExclusiveStep(p, w, s);
    UsedStaysBounded(p, w, s, u, k, bound);
    forall n | n in Next(p, w, s).txs && ForPair(Next(p, w, s).txs[n], u, k)
      ensures QuotaReads(Next(p, w, s).tables, Next(p, w, s).txs[n])
    {
      QuotaReadsKept(p, w, s, u, k, bound, n);
    }
  }

  /** A state within the bound and without a reservation under way is a start. */
  lemma QuotaStart(w: World, u: Uuid, k: Kind, bound: int)
    requires Quiet(w) && |UsedIds(w.tables, u, k)| <= bound
    ensures QuotaInv(w, u, k, bound)
  {
  }

  /** Every run keeps the number of used scans within the plan limit, or within where it started:
      no interleaving of reservations with anything else overspends a limited plan. */
  lemma {:induction false} QuotaIsNeverExceeded(p: Plans, w: World, steps: seq<Step>, u: Uuid, k: Kind, bound: int)
    requires QuotaInv(w, u, k, bound) && Run(p, w, steps) && 0 < p(u, k) <= bound
    ensures |UsedIds(Final(p, w, steps).tables, u, k)| <= bound
    decreases |steps|
  {
    if steps != [] {
      QuotaStep(p, w, steps[0], u, k, bound);
      QuotaIsNeverExceeded(p, Next(p, w, steps[0]), steps[1..], u, k, bound);
    }
  }
}
