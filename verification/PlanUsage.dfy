/** `GET /plans/usage` and the credits behind it (`GetPlanUsage`, `usageFromReservation`). */
module PlanUsage {
  import opened Domain
  import opened Ledger
  import opened PlanLimits
  import opened QuotaProtocol

  /** One kind's half of the usage answer. */
  datatype Usage1 = Usage1(used: int, visible: int, deletedByUser: int, inFlight: int, limit: int, left: int)

  /** The three counts are separate statements outside a transaction: each sees the tables of its own moment. */
  function UsageOf(first: Tables, second: Tables, third: Tables, u: Uuid, k: Kind, limit: int): Usage1 {
    var used := |LedgerIds(first, u, k)|;
    var visible := |SuccessIds(second, u, k)|;
    Usage1(used, visible, used - visible, |InFlightIds(third, u, k)|, limit, ScansLeft(limit, used))
  }

  /* ---- What the environment promises about credits ---- */

  /** A scan id no table and no reservation uses yet. */
  predicate Fresh(w: World, id: ScanId) {
    && id !in w.tables.events && id !in w.tables.wallets && id !in w.tables.endpoints
    && forall n :: n in w.txs ==> w.txs[n].scan != id
  }

  predicate Succeeded(rows: map<ScanId, Row>, id: ScanId) {
    id in rows && rows[id].state.SUCCESS?
  }

  /** Scan ids are fresh, a successful scan keeps its ledger row, and only a reserved scan can succeed. */
  predicate Disciplined(w: World, s: Step) {
    match s
    case Begin(_, _, _, scan) => Fresh(w, scan)
    case CreateCatalogRow(id, _) => Fresh(w, id)
    case Release(id) => !Succeeded(w.tables.wallets, id) && !Succeeded(w.tables.endpoints, id)
    case Advance(kind, id, state) =>
      state.SUCCESS? && id in Rows(w.tables, kind) && !Rows(w.tables, kind)[id].catalog ==> id in w.tables.events
    case _ => true
  }

  ghost predicate DisciplinedRun(p: Plans, w: World, steps: seq<Step>)
    requires Run(p, w, steps)
    decreases |steps|
  {
    steps == [] || (Disciplined(w, steps[0]) && DisciplinedRun(p, Next(p, w, steps[0]), steps[1..]))
  }

  /** A reserved id's row is in its kind's table and belongs to its user; a success is reserved. */
  predicate CreditedRow(t: Tables, k: Kind, id: ScanId)
    requires id in Rows(t, k)
  {
    && (id in t.events ==>
        Rows(t, k)[id].owner == Some(t.events[id].user) && t.events[id].kind == k && !Rows(t, k)[id].catalog)
    && (Rows(t, k)[id].state.SUCCESS? && !Rows(t, k)[id].catalog ==> id in t.events)
    && (Rows(t, k)[id].catalog ==> Rows(t, k)[id].owner.None?)
  }

  ghost predicate Credited(w: World) {
    && (forall k, id :: id in Rows(w.tables, k) ==> CreditedRow(w.tables, k, id))
    && (forall n :: n in w.txs && !w.txs[n].phase.Done? ==>
          && w.txs[n].scan !in w.tables.events && w.txs[n].scan !in w.tables.wallets
          && w.txs[n].scan !in w.tables.endpoints)
    && (forall m, n :: m in w.txs && n in w.txs && m != n ==> w.txs[m].scan != w.txs[n].scan)
  }

  lemma CreditedPut(t: Tables, l: Kind, x: ScanId, row: Row, k: Kind, id: ScanId)
    requires id in Rows(PutRow(t, l, x, row), k) && (id in Rows(t, k) ==> CreditedRow(t, k, id))
    requires l == k && x == id ==>
               && (id in t.events ==> row.owner == Some(t.events[id].user) && t.events[id].kind == k && !row.catalog)
               && (row.state.SUCCESS? && !row.catalog ==> id in t.events) && (row.catalog ==> row.owner.None?)
    ensures CreditedRow(PutRow(t, l, x, row), k, id)
  {
  }

  lemma CreditedRows(p: Plans, w: World, s: Step, k: Kind, id: ScanId)
    requires Credited(w) && Enabled(w, s) && Disciplined(w, s) && id in Rows(Next(p, w, s).tables, k)
    ensures CreditedRow(Next(p, w, s).tables, k, id)
  {
    var t := w.tables;
    assert id in Rows(t, k) ==> CreditedRow(t, k, id);
    match s
    case CreateRow(x, state) =>
      CreditedPut(t, t.events[x].kind, x, Row(Some(t.events[x].user), state, false, false), k, id);
    case CreateCatalogRow(x, state) => CreditedPut(t, Endpoint, x, Row(None, state, false, true), k, id);
    case Advance(l, x, state) =>
      assert CreditedRow(t, l, x);
      CreditedPut(t, l, x, Rows(t, l)[x].(state := state), k, id);
    case SoftDelete(l, x) =>
      assert CreditedRow(t, l, x);
      CreditedPut(t, l, x, Rows(t, l)[x].(deleted := true), k, id);
    case _ =>
  }

  lemma CreditedTxs(p: Plans, w: World, s: Step, n: nat)
    requires Credited(w) && Enabled(w, s) && Disciplined(w, s) && n in Next(p, w, s).txs
    ensures var w' := Next(p, w, s);
            && (!w'.txs[n].phase.Done? ==>
                  && w'.txs[n].scan !in w'.tables.events && w'.txs[n].scan !in w'.tables.wallets
                  && w'.txs[n].scan !in w'.tables.endpoints)
            && forall m :: m in w'.txs && m != n ==> w'.txs[m].scan != w'.txs[n].scan
  {
  }

  lemma CreditedStep(p: Plans, w: World, s: Step)
    requires Credited(w) && Enabled(w, s) && Disciplined(w, s)
    ensures Credited(Next(p, w, s))
  {
    forall k, id | id in Rows(Next(p, w, s).tables, k)
      ensures CreditedRow(Next(p, w, s).tables, k, id)
    {
      CreditedRows(p, w, s, k, id);
    }
    forall n | n in Next(p, w, s).txs { CreditedTxs(p, w, s, n); }
  }

  lemma {:induction false} CreditedRun(p: Plans, w: World, steps: seq<Step>)
    requires Credited(w) && Run(p, w, steps) && DisciplinedRun(p, w, steps)
    ensures Credited(Final(p, w, steps)) && RowsMatchKind(Final(p, w, steps).tables)
    decreases |steps|
  {
    if steps != [] {
      CreditedStep(p, w, steps[0]);
      CreditedRun(p, Next(p, w, steps[0]), steps[1..]);
    } else {
      assert forall k, id :: id in Rows(w.tables, k) ==> CreditedRow(w.tables, k, id);
    }
  }

  /* ---- Where the credits are ---- */

  /** Reserved scans that succeeded and were then hidden by the user. */
  function HiddenSuccesses(t: Tables, u: Uuid, k: Kind): set<ScanId> {
    set id | id in LedgerIds(t, u, k) && Succeeded(Rows(t, k), id) && Rows(t, k)[id].deleted
  }

  /** Reserved scans that have not succeeded: no row yet, in flight, or failed without a release. */
  function Unsuccessful(t: Tables, u: Uuid, k: Kind): set<ScanId> {
    set id | id in LedgerIds(t, u, k) && !Succeeded(Rows(t, k), id)
  }

  /** Every credit is a visible success, a hidden success or an unsuccessful reservation, and only one of them. */
  lemma CreditsPartition(w: World, u: Uuid, k: Kind)
    requires Credited(w) && !k.Unsupported?
    ensures var t := w.tables;
            && LedgerIds(t, u, k) == SuccessIds(t, u, k) + HiddenSuccesses(t, u, k) + Unsuccessful(t, u, k)
            && SuccessIds(t, u, k) !! HiddenSuccesses(t, u, k) !! Unsuccessful(t, u, k)
  {
    var t := w.tables;
    forall id | id in Rows(t, k)
      ensures id in SuccessIds(t, u, k) <==>
              id in LedgerIds(t, u, k) && Succeeded(Rows(t, k), id) && !Rows(t, k)[id].deleted
    {
      assert CreditedRow(t, k, id);
    }
  }

  /** When the counts see one state, `deleted_by_user` is the successes the user hid plus the unsuccessful
      reservations: the documented number exactly when every reservation has succeeded. */
  lemma DeletedByUserCounts(w: World, u: Uuid, k: Kind, limit: int)
    requires Credited(w) && !k.Unsupported?
    ensures var t, usage := w.tables, UsageOf(w.tables, w.tables, w.tables, u, k, limit);
            && usage.deletedByUser == |HiddenSuccesses(t, u, k)| + |Unsuccessful(t, u, k)|
            && (usage.deletedByUser == |HiddenSuccesses(t, u, k)| <==>
                forall id :: id in LedgerIds(t, u, k) ==> Succeeded(Rows(t, k), id))
  {
    CreditsPartition(w, u, k);
    var t := w.tables;
    if |Unsuccessful(t, u, k)| == 0 {
      assert forall id :: id in LedgerIds(t, u, k) ==> id !in Unsuccessful(t, u, k);
    }
    if forall id :: id in LedgerIds(t, u, k) ==> Succeeded(Rows(t, k), id) {
      assert Unsuccessful(t, u, k) == {};
    }
  }

  /* ---- The counts at different moments ---- */

  /** A commit that grants a scan to the pair. */
  predicate GrantsTo(p: Plans, w: World, s: Step, u: Uuid, k: Kind) {
    s.Commit? && Enabled(w, s) && ForPair(w.txs[s.n], u, k) && Grants(p, w.txs[s.n])
  }

  ghost predicate GrantFree(p: Plans, w: World, steps: seq<Step>, u: Uuid, k: Kind)
    requires Run(p, w, steps)
    decreases |steps|
  {
    steps == [] || (!GrantsTo(p, w, steps[0], u, k) && GrantFree(p, Next(p, w, steps[0]), steps[1..], u, k))
  }

  lemma {:induction false} LedgerOnlyShrinks(p: Plans, w: World, steps: seq<Step>, u: Uuid, k: Kind)
    requires Run(p, w, steps) && GrantFree(p, w, steps, u, k)
    ensures LedgerIds(Final(p, w, steps).tables, u, k) <= LedgerIds(w.tables, u, k)
    decreases |steps|
  {
    if steps != [] {
      if IsTxStep(steps[0]) {
        TxStepTables(p, w, steps[0], u, k);
      } else {
        EnvironmentShrinks(p, w, steps[0], u, k);
      }
      LedgerOnlyShrinks(p, Next(p, w, steps[0]), steps[1..], u, k);
    }
  }

  lemma Difference(a: set<ScanId>, b: set<ScanId>)
    ensures |a| - |b| == |a - b| - |b - a|
  {
    assert a == (a - b) + (a * b) && b == (b - a) + (a * b);
  }

  /** Over any disciplined run between the two reads, `deleted_by_user` is the credits of the first read that are no
      visible success at the second, minus the visible successes granted in between. It cannot be negative if no
      reservation of the pair is granted between the reads. */
  lemma DeletedByUserOverRuns(p: Plans, w: World, steps: seq<Step>, third: Tables, u: Uuid, k: Kind, limit: int)
    requires Credited(w) && Run(p, w, steps) && DisciplinedRun(p, w, steps) && !k.Unsupported?
    ensures var t, v := w.tables, Final(p, w, steps).tables;
            var usage := UsageOf(t, v, third, u, k, limit);
            && usage.deletedByUser
               == |LedgerIds(t, u, k) - SuccessIds(v, u, k)| - |SuccessIds(v, u, k) - LedgerIds(t, u, k)|
            && SuccessIds(v, u, k) <= LedgerIds(v, u, k)
            && (GrantFree(p, w, steps, u, k) ==>
                  usage.deletedByUser == |LedgerIds(t, u, k) - SuccessIds(v, u, k)| >= 0)
  {
    var t, v := w.tables, Final(p, w, steps).tables;
    CreditedRun(p, w, steps);
    CreditsPartition(Final(p, w, steps), u, k);
    Difference(LedgerIds(t, u, k), SuccessIds(v, u, k));
    if GrantFree(p, w, steps, u, k) {
      LedgerOnlyShrinks(p, w, steps, u, k);
      assert SuccessIds(v, u, k) - LedgerIds(t, u, k) == {};
    }
  }

  /** Some disciplined run leads from one world to the other. */
  ghost predicate Leads(p: Plans, w: World, v: World) {
    exists steps :: Run(p, w, steps) && DisciplinedRun(p, w, steps) && Final(p, w, steps) == v
  }

  lemma LeadsHere(p: Plans, w: World)
    ensures Leads(p, w, w)
  {
    assert Run(p, w, []) && DisciplinedRun(p, w, []) && Final(p, w, []) == w;
  }

  lemma LeadsFirst(p: Plans, w: World, s: Step, v: World)
    requires Enabled(w, s) && Disciplined(w, s) && Leads(p, Next(p, w, s), v)
    ensures Leads(p, w, v)
  {
    var u := Next(p, w, s);
    var rest :| Run(p, u, rest) && DisciplinedRun(p, u, rest) && Final(p, u, rest) == v;
    var steps := [s] + rest;
    assert steps[0] == s && steps[1..] == rest;
    assert Run(p, w, steps) && DisciplinedRun(p, w, steps) && Final(p, w, steps) == v;
  }

  lemma {:induction false} LeadsConcat(p: Plans, w: World, first: seq<Step>, last: seq<Step>)
    requires Run(p, w, first) && DisciplinedRun(p, w, first)
    requires Run(p, Final(p, w, first), last) && DisciplinedRun(p, Final(p, w, first), last)
    ensures Run(p, w, first + last) && DisciplinedRun(p, w, first + last)
    ensures Final(p, w, first + last) == Final(p, Final(p, w, first), last)
    decreases |first|
  {
    if first == [] {
      assert first + last == last;
    } else {
      assert (first + last)[0] == first[0] && (first + last)[1..] == first[1..] + last;
      LeadsConcat(p, Next(p, w, first[0]), first[1..], last);
    }
  }

  lemma LeadsFurther(p: Plans, w: World, u: World, v: World)
    requires Leads(p, w, u) && Leads(p, u, v)
    ensures Leads(p, w, v)
  {
    var first :| Run(p, w, first) && DisciplinedRun(p, w, first) && Final(p, w, first) == u;
    var last :| Run(p, u, last) && DisciplinedRun(p, u, last) && Final(p, u, last) == v;
    LeadsConcat(p, w, first, last);
  }

  lemma LeadsKeepsCredit(p: Plans, w: World, v: World)
    requires Credited(w) && Leads(p, w, v)
    ensures Credited(v)
  {
    var steps :| Run(p, w, steps) && DisciplinedRun(p, w, steps) && Final(p, w, steps) == v;
    CreditedRun(p, w, steps);
  }

  /** A reservation that nobody disturbs takes the lock, reads the four counts, */
  lemma GrantOpens(p: Plans, w: World, n: nat, u: Uuid, k: Kind, id: ScanId) returns (v: World)
    requires Quiet(w) && Fresh(w, id) && id != NIL_SCAN && !k.Unsupported? && n !in w.txs
    ensures v == World(w.tables, w.txs[n := Tx(u, k, id, Locked)]) && Leads(p, w, v)
  {
    var w1 := Next(p, w, Begin(n, u, k, id));
    v := Next(p, w1, Acquire(n));
    LeadsHere(p, v);
    LeadsFirst(p, w1, Acquire(n), v);
    LeadsFirst(p, w, Begin(n, u, k, id), v);
  }

  lemma GrantReads(p: Plans, w: World, n: nat, u: Uuid, k: Kind) returns (v: World)
    requires n in w.txs && ForPair(w.txs[n], u, k) && w.txs[n].phase.Locked?
    ensures var t := w.tables;
            var counts := Read4(|LedgerIds(t, u, k)|, |InFlightIds(t, u, k)|, |ExtraIds(t, u, k)|, |OpenIds(t, u, k)|);
            v == World(t, w.txs[n := w.txs[n].(phase := counts)])
    ensures Leads(p, w, v)
  {
    var w1 := Next(p, w, ReadLedger(n));
    var w2 := Next(p, w1, ReadInFlight(n));
    var w3 := Next(p, w2, ReadExtra(n));
    v := Next(p, w3, ReadOpen(n));
    LeadsHere(p, v);
    LeadsFirst(p, w3, ReadOpen(n), v);
    LeadsFirst(p, w2, ReadExtra(n), v);
    LeadsFirst(p, w1, ReadInFlight(n), v);
    LeadsFirst(p, w, ReadLedger(n), v);
  }

  /** and is granted. */
  lemma Grant(p: Plans, w: World, n: nat, u: Uuid, k: Kind, id: ScanId) returns (v: World)
    requires Quiet(w) && Fresh(w, id) && id != NIL_SCAN && !k.Unsupported? && n !in w.txs
    requires |ParallelIds(w.tables, u, k)| < ParallelCap(p(u, k))
    requires 0 < p(u, k) ==> |UsedIds(w.tables, u, k)| < p(u, k)
    ensures v.tables == Record(w.tables, u, id, k) && Quiet(v) && Leads(p, w, v)
  {
    SnapshotIsExact(w.tables, u, k);
    var w1 := GrantOpens(p, w, n, u, k, id);
    var w2 := GrantReads(p, w1, n, u, k);
    v := Next(p, w2, Commit(n));
    LeadsHere(p, v);
    LeadsFirst(p, w2, Commit(n), v);
    LeadsFurther(p, w1, w2, v);
    LeadsFurther(p, w, w1, v);
  }

  /* ---- Exactly when the answer can be negative ---- */

  /** A success that its user hid stays hidden and credited. */
  lemma HiddenStep(p: Plans, w: World, s: Step, u: Uuid, k: Kind)
    requires Enabled(w, s) && Disciplined(w, s) && !k.Unsupported?
    ensures HiddenSuccesses(w.tables, u, k) <= HiddenSuccesses(Next(p, w, s).tables, u, k)
  {
  }

  lemma {:induction false} HiddenStay(p: Plans, w: World, steps: seq<Step>, u: Uuid, k: Kind)
    requires Run(p, w, steps) && DisciplinedRun(p, w, steps) && !k.Unsupported?
    ensures HiddenSuccesses(w.tables, u, k) <= HiddenSuccesses(Final(p, w, steps).tables, u, k)
    decreases |steps|
  {
    if steps != [] {
      HiddenStep(p, w, steps[0], u, k);
      HiddenStay(p, Next(p, w, steps[0]), steps[1..], u, k);
    }
  }

  lemma DisjointFit(a: set<ScanId>, b: set<ScanId>, all: set<ScanId>)
    requires a !! b && a + b <= all
    ensures |a| + |b| <= |all|
  {
    SubsetSize(a + b, all);
    assert |a + b| == |a| + |b|;
  }

  /** In every run the visible successes leave room for the ones hidden at the first read. */
  lemma VisibleFit(p: Plans, w: World, steps: seq<Step>, u: Uuid, k: Kind)
    requires Quiet(w) && Credited(w) && !k.Unsupported? && 0 < p(u, k) && |UsedIds(w.tables, u, k)| <= p(u, k)
    requires Run(p, w, steps) && DisciplinedRun(p, w, steps)
    ensures |SuccessIds(Final(p, w, steps).tables, u, k)| + |HiddenSuccesses(w.tables, u, k)| <= p(u, k)
  {
    var v := Final(p, w, steps).tables;
    CreditedRun(p, w, steps);
    CreditsPartition(Final(p, w, steps), u, k);
    HiddenStay(p, w, steps, u, k);
    QuotaStart(w, u, k, p(u, k));
    QuotaIsNeverExceeded(p, w, steps, u, k, p(u, k));
    DisjointFit(SuccessIds(v, u, k), HiddenSuccesses(w.tables, u, k), LedgerIds(v, u, k));
    SubsetSize(LedgerIds(v, u, k), UsedIds(v, u, k));
  }

  /** Nothing of the pair is in flight, open or unsuccessful: its credits are its successes. */
  ghost predicate Settled(w: World, u: Uuid, k: Kind) {
    Quiet(w) && Credited(w) && InFlightIds(w.tables, u, k) == {} && Unsuccessful(w.tables, u, k) == {}
  }

  /** The successes, visible and hidden, are the same. */
  predicate SameSuccesses(t: Tables, v: Tables, u: Uuid, k: Kind) {
    SuccessIds(v, u, k) == SuccessIds(t, u, k) && HiddenSuccesses(v, u, k) == HiddenSuccesses(t, u, k)
  }

  lemma FailOne(t: Tables, u: Uuid, k: Kind, id: ScanId)
    requires id in InFlightIds(t, u, k) && !k.Unsupported?
    ensures var v := PutRow(t, k, id, Rows(t, k)[id].(state := FAILED));
            SameSuccesses(t, v, u, k) && InFlightIds(v, u, k) == InFlightIds(t, u, k) - {id}
  {
  }

  /** The scans in flight fail. */
  lemma {:induction false} FailAll(p: Plans, w: World, u: Uuid, k: Kind) returns (v: World)
    requires Quiet(w) && Credited(w) && !k.Unsupported?
    ensures Leads(p, w, v) && Quiet(v) && Credited(v) && InFlightIds(v.tables, u, k) == {}
    ensures SameSuccesses(w.tables, v.tables, u, k)
    decreases |InFlightIds(w.tables, u, k)|
  {
    if InFlightIds(w.tables, u, k) == {} {
      v := w;
      LeadsHere(p, w);
    } else {
      var id :| id in InFlightIds(w.tables, u, k);
      var s := Advance(k, id, FAILED);
      FailOne(w.tables, u, k, id);
      CreditedStep(p, w, s);
      v := FailAll(p, Next(p, w, s), u, k);
      LeadsFirst(p, w, s, v);
    }
  }

  lemma ReleaseOne(t: Tables, u: Uuid, k: Kind, id: ScanId)
    requires id in Unsuccessful(t, u, k)
    ensures var v := t.(events := t.events - {id});
            && SameSuccesses(t, v, u, k) && InFlightIds(v, u, k) == InFlightIds(t, u, k)
            && Unsuccessful(v, u, k) == Unsuccessful(t, u, k) - {id}
  {
  }

  /** The unsuccessful reservations are released. */
  lemma {:induction false} ReleaseAll(p: Plans, w: World, u: Uuid, k: Kind) returns (v: World)
    requires Quiet(w) && Credited(w) && InFlightIds(w.tables, u, k) == {} && !k.Unsupported?
    ensures Leads(p, w, v) && Settled(v, u, k) && SameSuccesses(w.tables, v.tables, u, k)
    decreases |Unsuccessful(w.tables, u, k)|
  {
    if Unsuccessful(w.tables, u, k) == {} {
      v := w;
      LeadsHere(p, w);
    } else {
      var id :| id in Unsuccessful(w.tables, u, k);
      ReleaseOne(w.tables, u, k, id);
      ReleaseIsDisciplined(w, u, k, id);
      CreditedStep(p, w, Release(id));
      v := ReleaseAll(p, Next(p, w, Release(id)), u, k);
      LeadsFirst(p, w, Release(id), v);
    }
  }

  lemma ReleaseIsDisciplined(w: World, u: Uuid, k: Kind, id: ScanId)
    requires Credited(w) && id in Unsuccessful(w.tables, u, k) && !k.Unsupported?
    ensures Disciplined(w, Release(id))
  {
    var t := w.tables;
    assert id in Rows(t, Wallet) ==> CreditedRow(t, Wallet, id);
    assert id in Rows(t, Endpoint) ==> CreditedRow(t, Endpoint, id);
  }

  lemma {:induction false} NotIn(s: set<nat>) returns (n: nat)
    ensures 0 < n && forall x :: x in s ==> x < n
    decreases |s|
  {
    if s == {} {
      n := 1;
    } else {
      var x :| x in s;
      var m := NotIn(s - {x});
      assert forall y :: y in s ==> y == x || y in s - {x};
      n := if x < m then m else x + 1;
    }
  }

  lemma SomeFresh(w: World) returns (n: nat, id: ScanId)
    ensures n !in w.txs && id != NIL_SCAN && Fresh(w, id)
  {
    n := NotIn(w.txs.Keys);
    var scans := set m | m in w.txs :: w.txs[m].scan;
    id := NotIn(w.tables.events.Keys + w.tables.wallets.Keys + w.tables.endpoints.Keys + scans);
    assert forall m :: m in w.txs ==> w.txs[m].scan in scans;
  }

  lemma SuccessAdded(t: Tables, u: Uuid, k: Kind, id: ScanId)
    requires id !in t.events && id !in Rows(t, k) && !k.Unsupported?
    ensures var v := PutRow(Record(t, u, id, k), k, id, Row(Some(u), SUCCESS, false, false));
            && SuccessIds(v, u, k) == SuccessIds(t, u, k) + {id} && id !in SuccessIds(t, u, k)
            && HiddenSuccesses(v, u, k) == HiddenSuccesses(t, u, k)
            && InFlightIds(v, u, k) == InFlightIds(t, u, k) && Unsuccessful(v, u, k) == Unsuccessful(t, u, k)
  {
    var row := Row(Some(u), SUCCESS, false, false);
    var v := PutRow(Record(t, u, id, k), k, id, row);
    assert Rows(v, k) == Rows(t, k)[id := row] && LedgerIds(v, u, k) == LedgerIds(t, u, k) + {id};
  }

  lemma SettledCounts(w: World, u: Uuid, k: Kind)
    requires Settled(w, u, k) && !k.Unsupported?
    ensures |UsedIds(w.tables, u, k)| == |SuccessIds(w.tables, u, k)| + |HiddenSuccesses(w.tables, u, k)|
    ensures |ParallelIds(w.tables, u, k)| == 0
  {
    var t := w.tables;
    CreditsPartition(w, u, k);
    assert UsedIds(t, u, k) == SuccessIds(t, u, k) + HiddenSuccesses(t, u, k);
    assert OpenIds(t, u, k) <= Unsuccessful(t, u, k);
    assert ParallelIds(t, u, k) == {};
  }

  lemma Succeeds(p: Plans, w: World, u: Uuid, k: Kind, id: ScanId) returns (v: World)
    requires id in w.tables.events && w.tables.events[id] == Usage(u, k) && id !in Rows(w.tables, k)
    ensures v == World(PutRow(w.tables, k, id, Row(Some(u), SUCCESS, false, false)), w.txs) && Leads(p, w, v)
  {
    var s := CreateRow(id, SUCCESS);
    v := Next(p, w, s);
    LeadsHere(p, v);
    LeadsFirst(p, w, s, v);
  }

  /** One more scan is granted and succeeds. */
  lemma OneMoreSuccess(p: Plans, w: World, u: Uuid, k: Kind) returns (v: World)
    requires Settled(w, u, k) && !k.Unsupported?
    requires 0 < p(u, k) ==> |SuccessIds(w.tables, u, k)| + |HiddenSuccesses(w.tables, u, k)| < p(u, k)
    ensures Leads(p, w, v) && Settled(v, u, k) && HiddenSuccesses(v.tables, u, k) == HiddenSuccesses(w.tables, u, k)
    ensures |SuccessIds(v.tables, u, k)| == |SuccessIds(w.tables, u, k)| + 1
  {
    SettledCounts(w, u, k);
    var n, id := SomeFresh(w);
    var w1 := Grant(p, w, n, u, k, id);
    v := Succeeds(p, w1, u, k, id);
    LeadsFurther(p, w, w1, v);
    SuccessAdded(w.tables, u, k, id);
    LeadsKeepsCredit(p, w, v);
  }

  lemma {:induction false} MoreSuccesses(p: Plans, w: World, u: Uuid, k: Kind, n: nat) returns (v: World)
    requires Settled(w, u, k) && !k.Unsupported? && |SuccessIds(w.tables, u, k)| <= n
    requires 0 < p(u, k) ==> n + |HiddenSuccesses(w.tables, u, k)| <= p(u, k)
    ensures Leads(p, w, v) && |SuccessIds(v.tables, u, k)| == n
    decreases n - |SuccessIds(w.tables, u, k)|
  {
    if |SuccessIds(w.tables, u, k)| == n {
      v := w;
      LeadsHere(p, w);
    } else {
      var w1 := OneMoreSuccess(p, w, u, k);
      v := MoreSuccesses(p, w1, u, k, n);
      LeadsFurther(p, w, w1, v);
    }
  }

  /** The first count at `w` and the second at `v`. */
  function DeletedByUser(w: World, v: World, u: Uuid, k: Kind, limit: int): int {
    UsageOf(w.tables, v.tables, v.tables, u, k, limit).deletedByUser
  }

  /** Without room for hidden successes on top of today's credits, some run makes the answer negative. */
  lemma AnswerCanBeNegative(p: Plans, w: World, u: Uuid, k: Kind) returns (v: World)
    requires Quiet(w) && Credited(w) && !k.Unsupported?
    requires !(0 < p(u, k) <= |LedgerIds(w.tables, u, k)| + |HiddenSuccesses(w.tables, u, k)|)
    ensures Leads(p, w, v) && DeletedByUser(w, v, u, k, p(u, k)) == -1
  {
    CreditsPartition(w, u, k);
    SubsetSize(SuccessIds(w.tables, u, k), LedgerIds(w.tables, u, k));
    var w1 := FailAll(p, w, u, k);
    var w2 := ReleaseAll(p, w1, u, k);
    v := MoreSuccesses(p, w2, u, k, |LedgerIds(w.tables, u, k)| + 1);
    LeadsFurther(p, w, w1, w2);
    LeadsFurther(p, w, w2, v);
  }

  /** From a state without a reservation under way and within quota, `deleted_by_user` is never negative, whatever
      happens between the two reads, if and only if the plan is limited and its limit is at most the credits plus the
      hidden successes at the first read. */
  lemma NeverNegativeIff(p: Plans, w: World, u: Uuid, k: Kind)
    requires Quiet(w) && Credited(w) && !k.Unsupported? && (0 < p(u, k) ==> |UsedIds(w.tables, u, k)| <= p(u, k))
    ensures (forall v :: Leads(p, w, v) ==> DeletedByUser(w, v, u, k, p(u, k)) >= 0) <==>
            0 < p(u, k) <= |LedgerIds(w.tables, u, k)| + |HiddenSuccesses(w.tables, u, k)|
  {
    if 0 < p(u, k) <= |LedgerIds(w.tables, u, k)| + |HiddenSuccesses(w.tables, u, k)| {
      forall v | Leads(p, w, v) ensures DeletedByUser(w, v, u, k, p(u, k)) >= 0 {
        var steps :| Run(p, w, steps) && DisciplinedRun(p, w, steps) && Final(p, w, steps) == v;
        VisibleFit(p, w, steps, u, k);
      }
    } else {
      var v := AnswerCanBeNegative(p, w, u, k);
    }
  }

  /* ---- What is left ---- */

  /** Whenever a limited plan is asked about, in any run and whatever the later counts see, what is used and what is
      left add up to the limit. */
  lemma UsedPlusLeft(p: Plans, w: World, steps: seq<Step>, second: Tables, third: Tables, u: Uuid, k: Kind)
    requires QuotaInv(w, u, k, p(u, k)) && Run(p, w, steps) && 0 < p(u, k)
    ensures var usage := UsageOf(Final(p, w, steps).tables, second, third, u, k, p(u, k));
            usage.used + usage.left == p(u, k)
  {
    QuotaIsNeverExceeded(p, w, steps, u, k, p(u, k));
    var t := Final(p, w, steps).tables;
    SubsetSize(LedgerIds(t, u, k), UsedIds(t, u, k));
  }

  /** A granted reservation of an unused id costs exactly one credit of its pair and none of any other. */
  lemma GrantCostsOne(t: Tables, u: Uuid, k: Kind, id: ScanId, v: Uuid, l: Kind, limit: int)
    requires id !in t.events && 0 < limit && |LedgerIds(t, u, k)| < limit
    ensures var after := Record(t, u, id, k);
            && UsageOf(after, after, after, u, k, limit).left == UsageOf(t, t, t, u, k, limit).left - 1
            && ((v, l) != (u, k) ==>
                UsageOf(after, after, after, v, l, limit).left == UsageOf(t, t, t, v, l, limit).left)
  {
    assert LedgerIds(Record(t, u, id, k), u, k) == LedgerIds(t, u, k) + {id};
    if (v, l) != (u, k) {
      assert LedgerIds(Record(t, u, id, k), v, l) == LedgerIds(t, v, l);
    }
  }

  /* ---- How the answer moves ---- */

  /** For any three reads: visible and deleted make up used, the limit is the plan's, and what is left is -1 for an
      unlimited plan, nothing once the limit is used up, and the difference otherwise. */
  lemma UsageAddsUp(first: Tables, second: Tables, third: Tables, u: Uuid, k: Kind, limit: int)
    ensures var a := UsageOf(first, second, third, u, k, limit);
            && a.used == a.visible + a.deletedByUser && a.limit == limit
            && a.used == |LedgerIds(first, u, k)| && a.visible == |SuccessIds(second, u, k)|
            && a.inFlight == |InFlightIds(third, u, k)|
            && (limit == 0 ==> a.left == -1) && (limit != 0 && limit <= a.used ==> a.left == 0)
            && (limit > a.used ==> limit == 0 || a.left == limit - a.used)
  {
  }

  /** The answer in one state. */
  function UsageAt(w: World, u: Uuid, k: Kind, limit: int): Usage1 {
    UsageOf(w.tables, w.tables, w.tables, u, k, limit)
  }

  lemma RowPut(t: Tables, u: Uuid, k: Kind, id: ScanId, row: Row)
    requires !k.Unsupported?
    ensures var v := PutRow(t, k, id, row);
            && LedgerIds(v, u, k) == LedgerIds(t, u, k)
            && SuccessIds(v, u, k)
               == SuccessIds(t, u, k) - {id} + (if Visible(row, u, k) && row.state == SUCCESS then {id} else {})
            && InFlightIds(v, u, k)
               == InFlightIds(t, u, k) - {id} + (if Visible(row, u, k) && !IsTerminal(row.state) then {id} else {})
  {
    var v := PutRow(t, k, id, row);
    assert Rows(v, k) == Rows(t, k)[id := row] && v.events == t.events;
    InFlightIsUnfinished(row.state);
    TransitionsAreExact(row.state, RUNNING);
  }

  /** How many sets gain and lose an element. */
  lemma MoveOne(from: set<ScanId>, to: set<ScanId>, id: ScanId)
    requires id in from && id !in to
    ensures |from - {id}| == |from| - 1 && |to - {id} + {id}| == |to| + 1 && to - {id} == to
  {
    assert to - {id} + {id} == to + {id};
  }

  /** The row of an open reservation appears: one more in flight, nothing else changes. */
  lemma AppearingRowIsInFlight(p: Plans, w: World, u: Uuid, k: Kind, id: ScanId, state: ScanState, limit: int)
    requires id in OpenIds(w.tables, u, k) && !k.Unsupported? && !IsTerminal(state)
    ensures Enabled(w, CreateRow(id, state))
    ensures var a, b := UsageAt(w, u, k, limit), UsageAt(Next(p, w, CreateRow(id, state)), u, k, limit);
            b == a.(inFlight := a.inFlight + 1)
  {
    RowPut(w.tables, u, k, id, Row(Some(u), state, false, false));
    MoveOne({id}, InFlightIds(w.tables, u, k), id);
    MoveOne({id}, SuccessIds(w.tables, u, k), id);
  }

  /** It succeeds: one less in flight, one more visible, one less unexplained. */
  lemma SucceedingRowIsVisible(p: Plans, w: World, u: Uuid, k: Kind, id: ScanId, limit: int)
    requires id in InFlightIds(w.tables, u, k) && !k.Unsupported?
    ensures Enabled(w, Advance(k, id, SUCCESS))
    ensures var a, b := UsageAt(w, u, k, limit), UsageAt(Next(p, w, Advance(k, id, SUCCESS)), u, k, limit);
            b == a.(inFlight := a.inFlight - 1, visible := a.visible + 1, deletedByUser := a.deletedByUser - 1)
  {
    RowPut(w.tables, u, k, id, Rows(w.tables, k)[id].(state := SUCCESS));
    MoveOne(InFlightIds(w.tables, u, k), SuccessIds(w.tables, u, k), id);
  }

  /** The user deletes a visible success: one less visible, one more deleted. */
  lemma HiddenSuccessIsDeleted(p: Plans, w: World, u: Uuid, k: Kind, id: ScanId, limit: int)
    requires id in SuccessIds(w.tables, u, k) && !k.Unsupported?
    ensures Enabled(w, SoftDelete(k, id))
    ensures var a, b := UsageAt(w, u, k, limit), UsageAt(Next(p, w, SoftDelete(k, id)), u, k, limit);
            b == a.(visible := a.visible - 1, deletedByUser := a.deletedByUser + 1)
  {
    RowPut(w.tables, u, k, id, Rows(w.tables, k)[id].(deleted := true));
    MoveOne(SuccessIds(w.tables, u, k), InFlightIds(w.tables, u, k), id);
  }
}
