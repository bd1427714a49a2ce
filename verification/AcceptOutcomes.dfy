/** What becomes of scans whose request went wrong, over every continuation: when a credit can still come back, when a
    lost pending record blocks a wallet for good, and the runs in which a delete or a stalled request breaks a promise
    that holds otherwise. */
module AcceptOutcomes {
  import opened Domain
  import opened AcceptProtocol

  /** Some run leads there, with or without restarts of Discovery on the way. */
  ghost predicate Reaches(w: World, v: World, restarts: bool) {
    exists steps :: Run(w, steps) && Final(w, steps) == v && (restarts || Restart !in steps)
  }

  lemma Here(w: World, restarts: bool)
    ensures Reaches(w, w, restarts)
  {
    assert Run(w, []) && Final(w, []) == w && Restart !in [];
  }

  lemma Then(w: World, u: World, s: Step, restarts: bool)
    requires Reaches(w, u, restarts) && Enabled(u, s) && (restarts || !s.Restart?)
    ensures Reaches(w, Next(u, s), restarts)
  {
    var steps :| Run(w, steps) && Final(w, steps) == u && (restarts || Restart !in steps);
    Append(w, steps, s);
    assert Run(w, steps + [s]) && (restarts || Restart !in steps + [s]);
  }

  lemma Further(w: World, u: World, v: World, restarts: bool)
    requires Reaches(w, u, restarts) && Reaches(u, v, restarts)
    ensures Reaches(w, v, restarts)
  {
    var first :| Run(w, first) && Final(w, first) == u && (restarts || Restart !in first);
    var last :| Run(u, last) && Final(u, last) == v && (restarts || Restart !in last);
    RunConcat(w, first, last);
    assert Run(w, first + last) && (restarts || Restart !in first + last);
  }

  lemma InvReaches(base: set<ScanId>, w: World, v: World, restarts: bool)
    requires Inv(base, w) && Reaches(w, v, restarts)
    ensures Inv(base, v)
  {
    var steps :| Run(w, steps) && Final(w, steps) == v && (restarts || Restart !in steps);
    InvRun(base, w, steps);
  }

  /** One step of request `n`, and one elsewhere. */
  lemma ThenRequest(w: World, st: Stores, requests: map<nat, Request>, r: Request, s: Step)
    requires ByRequest(s) && Ready(st, r.pc, s) && Reaches(w, World(st, requests[s.n := r]), false)
    ensures Reaches(w, World(StoresAfter(st, r, s), requests[s.n := After(st, r, s)]), false)
  {
    Then(w, World(st, requests[s.n := r]), s, false);
    assert requests[s.n := r][s.n := After(st, r, s)] == requests[s.n := After(st, r, s)];
  }

  lemma ThenElsewhere(w: World, u: World, s: Step)
    requires Reaches(w, u, false) && Possible(u.st, s) && !s.Restart?
    ensures Reaches(w, World(Elsewhere(u.st, s), u.requests), false)
  {
    Then(w, u, s, false);
  }

  /* ---- A request that goes through to its credit ---- */

  /** The wallet of the request is free, and no row of it is in flight. */
  predicate Admits(st: Stores, r: Request) {
    Open(st, r) && (r.family.WalletScan? ==> !RowsBlock(st, r))
  }

  lemma Arrives(w: World, n: nat, r: Request)
    requires n !in w.requests && r.pc.Looking?
    ensures Reaches(w, World(w.st, w.requests[n := r]), false)
  {
    Here(w, false);
    Then(w, w, Arrive(n, r.user, r.family, r.target), false);
  }

  /** The checks pass. */
  lemma ChecksPass(w: World, n: nat, r: Request)
    requires n !in w.requests && r.pc.Looking? && Admits(w.st, r)
    ensures Reaches(w, World(w.st, w.requests[n := r.(pc := Clear)]), false)
  {
    Arrives(w, n, r);
    ThenRequest(w, w.st, w.requests, r, Look(n));
    if r.family.WalletScan? {
      ThenRequest(w, w.st, w.requests, After(w.st, r, Look(n)), List(n));
    }
  }

  lemma EntriesGoIn(w: World, n: nat, r: Request, id: ScanId)
    requires n !in w.requests && r.pc.Looking? && Admits(w.st, r) && id !in w.st.issued && id != NIL_SCAN
    ensures Reaches(w, World(WithEntries(w.st, r, id), w.requests[n := r.(pc := Holding(id))]), false)
  {
    var clear := r.(pc := Clear);
    ChecksPass(w, n, r);
    ThenRequest(w, w.st, w.requests, clear, Hold(n, id, true));
    assert WithEntries(w.st, clear, id) == WithEntries(w.st, r, id);
  }

  /** The stores once a new scan has its entries and, with plans, its credit. */
  function EnteredStores(st: Stores, r: Request, id: ScanId): Stores {
    WithCredit(WithEntries(st, r, id), id, Granted)
  }

  lemma GoesThrough(w: World, n: nat, r: Request, id: ScanId) returns (v: World)
    requires n !in w.requests && r.pc.Looking? && Admits(w.st, r) && id !in w.st.issued && id != NIL_SCAN
    ensures Reaches(w, v, false) && v == World(EnteredStores(w.st, r, id), w.requests[n := r.(pc := Charged(id))])
  {
    EntriesGoIn(w, n, r, id);
    ThenRequest(w, WithEntries(w.st, r, id), w.requests, r.(pc := Holding(id)), Charge(n, Granted));
    v := World(EnteredStores(w.st, r, id), w.requests[n := r.(pc := Charged(id))]);
  }

  /* ---- When a credit can come back ---- */

  /** The request may yet be published or give its credit back. */
  predicate Undecided(pc: Pc, id: ScanId) {
    (pc.Charged? || (pc.Undoing? && pc.release)) && pc.id == id
  }

  /** The abandoner will never report the scan: it cannot address it, or remembers to have done so. */
  predicate Unreportable(st: Stores, id: ScanId, restarts: bool) {
    !Addressable(st, id) || (!restarts && id in st.told)
  }

  /** Nobody is left to end the scan: it is neither queued nor with a scanner, its failure is not in the stream, and the
      abandoner does not report it. */
  predicate Orphaned(st: Stores, id: ScanId, restarts: bool) {
    id !in st.queue && id !in st.running && (id, FAILED) !in st.reports && Unreportable(st, id, restarts)
  }

  /** The credit is spent for good: its scan is over, or orphaned with its request answered. */
  ghost predicate Stuck(w: World, id: ScanId, restarts: bool) {
    || Terminal(w.st, id)
    || (Orphaned(w.st, id, restarts) && forall n :: n in w.requests ==> !Undecided(w.requests[n].pc, id))
  }

  /** All that decides whether the credit is stuck is as before. */
  ghost predicate SameStanding(st: Stores, v: Stores, id: ScanId) {
    && (id in v.queue <==> id in st.queue) && (id in v.running <==> id in st.running) && v.reports == st.reports
    && (id in v.ledger <==> id in st.ledger) && v.rows == st.rows && v.told == st.told && IssuedGrows(st, v)
    && (id in v.records <==> id in st.records) && (id in st.records ==> v.records[id] == st.records[id])
  }

  lemma ChecksStand(st: Stores, r: Request, s: Step, id: ScanId)
    requires (Check(s) || s.Purge?) && Ready(st, r.pc, s)
    ensures SameStanding(st, StoresAfter(st, r, s), id) && !HasId(After(st, r, s).pc)
  {
  }

  lemma HoldStands(st: Stores, r: Request, s: Step, id: ScanId)
    requires s.Hold? && Ready(st, r.pc, s) && id in st.issued
    ensures SameStanding(st, StoresAfter(st, r, s), id) && !Undecided(After(st, r, s).pc, id)
  {
  }

  lemma CreditStands(st: Stores, x: ScanId, how: Charging, took: bool, id: ScanId)
    requires x != id
    ensures SameStanding(st, WithCredit(st, x, how), id) && SameStanding(st, WithoutCredit(st, x, took), id)
  {
  }

  lemma MessageStands(st: Stores, x: ScanId, ok: bool, took: bool, id: ScanId)
    requires x != id
    ensures SameStanding(st, WithMessage(st, x, ok), id) && SameStanding(st, WithoutEntries(st, x, took), id)
  {
  }

  lemma SagaStands(st: Stores, r: Request, s: Step, id: ScanId)
    requires Saga(s) && Ready(st, r.pc, s) && r.pc.id != id
    ensures SameStanding(st, StoresAfter(st, r, s), id) && !Undecided(After(st, r, s).pc, id)
  {
    match s
    case Charge(_, how) => CreditStands(st, r.pc.id, how, false, id);
    case Publish(_, ok) => MessageStands(st, r.pc.id, ok, false, id);
    case Release(_, took) => CreditStands(st, r.pc.id, Denied, took, id);
    case Forget(_, took) => MessageStands(st, r.pc.id, false, took, id);
  }

  lemma RequestStands(st: Stores, r: Request, s: Step, id: ScanId)
    requires ByRequest(s) && Ready(st, r.pc, s) && id in st.issued && (Saga(s) ==> r.pc.id != id)
    ensures SameStanding(st, StoresAfter(st, r, s), id) && !Undecided(After(st, r, s).pc, id)
  {
    if Saga(s) {
      SagaStands(st, r, s, id);
    } else if s.Hold? {
      HoldStands(st, r, s, id);
    } else {
      ChecksStand(st, r, s, id);
    }
  }

  /** Of the steps on a stuck scan itself only forgetting its pending entries is left. */
  lemma OnlyForgets(base: set<ScanId>, w: World, s: Step, id: ScanId, restarts: bool)
    requires Inv(base, w) && Saga(s) && Enabled(w, s) && w.requests[s.n].pc.id == id
    requires id in w.st.ledger && Stuck(w, id, restarts)
    ensures s.Forget? && !Terminal(w.st, id)
  {
    assert RequestOk(base, w.st, w.requests[s.n]);
  }

  lemma ForgetOrphans(st: Stores, took: bool, id: ScanId, restarts: bool)
    requires Orphaned(st, id, restarts)
    ensures Orphaned(WithoutEntries(st, id, took), id, restarts)
    ensures WithoutEntries(st, id, took).ledger == st.ledger
  {
  }

  lemma StandingKeeps(st: Stores, v: Stores, id: ScanId, restarts: bool)
    requires SameStanding(st, v, id) && id in st.issued
    ensures (Orphaned(st, id, restarts) ==> Orphaned(v, id, restarts)) && (Terminal(v, id) <==> Terminal(st, id))
  {
  }

  lemma OwnStepKeepsStuck(base: set<ScanId>, w: World, s: Step, id: ScanId, restarts: bool)
    requires Inv(base, w) && Saga(s) && Enabled(w, s) && w.requests[s.n].pc.id == id
    requires id in w.st.ledger && Stuck(w, id, restarts)
    ensures id in Next(w, s).st.ledger && Stuck(Next(w, s), id, restarts)
  {
    OnlyForgets(base, w, s, id, restarts);
    ForgetOrphans(w.st, s.took, id, restarts);
    assert Next(w, s).st == WithoutEntries(w.st, id, s.took);
  }

  lemma OtherStepKeepsStuck(w: World, s: Step, id: ScanId, restarts: bool)
    requires ByRequest(s) && Enabled(w, s) && (Saga(s) ==> w.requests[s.n].pc.id != id)
    requires id in w.st.issued && id in w.st.ledger && Stuck(w, id, restarts)
    ensures id in Next(w, s).st.ledger && Stuck(Next(w, s), id, restarts)
  {
    var r := w.requests[s.n];
    RequestStands(w.st, r, s, id);
    StandingKeeps(w.st, StoresAfter(w.st, r, s), id, restarts);
  }

  lemma RequestKeepsStuck(base: set<ScanId>, w: World, s: Step, id: ScanId, restarts: bool)
    requires Inv(base, w) && Enabled(w, s) && id in w.st.ledger && Stuck(w, id, restarts) && ByRequest(s)
    ensures id in Next(w, s).st.ledger && Stuck(Next(w, s), id, restarts)
  {
    if Saga(s) && w.requests[s.n].pc.id == id {
      OwnStepKeepsStuck(base, w, s, id, restarts);
    } else {
      OtherStepKeepsStuck(w, s, id, restarts);
    }
  }

  lemma OthersKeepStuck(st: Stores, s: Step, id: ScanId, restarts: bool)
    requires Possible(st, s) && id in st.ledger && (restarts || !s.Restart?)
    ensures Terminal(st, id) ==> id in Elsewhere(st, s).ledger && Terminal(Elsewhere(st, s), id)
    ensures !Terminal(st, id) && Orphaned(st, id, restarts) ==>
              && id in Elsewhere(st, s).ledger
              && (Orphaned(Elsewhere(st, s), id, restarts) || Terminal(Elsewhere(st, s), id))
  {
  }

  lemma StuckStep(base: set<ScanId>, w: World, s: Step, id: ScanId, restarts: bool)
    requires Inv(base, w) && Enabled(w, s) && id in w.st.ledger && Stuck(w, id, restarts) && (restarts || !s.Restart?)
    ensures id in Next(w, s).st.ledger && Stuck(Next(w, s), id, restarts)
  {
    if ByRequest(s) {
      RequestKeepsStuck(base, w, s, id, restarts);
    } else if !s.Arrive? {
      OthersKeepStuck(w.st, s, id, restarts);
    }
  }

  lemma {:induction false} StuckForGood(base: set<ScanId>, w: World, steps: seq<Step>, id: ScanId, restarts: bool)
    requires Inv(base, w) && Run(w, steps) && id in w.st.ledger && Stuck(w, id, restarts)
    requires restarts || Restart !in steps
    ensures id in Final(w, steps).st.ledger
    decreases |steps|
  {
    if steps != [] {
      assert steps[0] in steps;
      StuckStep(base, w, steps[0], id, restarts);
      InvStep(base, w, steps[0]);
      StuckForGood(base, Next(w, steps[0]), steps[1..], id, restarts);
    }
  }

  ghost predicate CanComeBack(w: World, id: ScanId, restarts: bool) {
    exists v :: Reaches(w, v, restarts) && id !in v.st.ledger
  }

  /** With its failure in the stream, an unfinished scan gives its credit back. */
  lemma FailureReturns(w: World, u: World, id: ScanId, restarts: bool)
    requires Reaches(w, u, restarts) && StoresOk(u.st) && id in u.st.ledger && !Terminal(u.st, id)
    requires (id, FAILED) in u.st.reports
    ensures CanComeBack(w, id, restarts)
  {
    Then(w, u, Apply(id, FAILED, 0), restarts);
    assert id !in Applied(u.st, id, FAILED, 0).ledger;
  }

  lemma ScannerReturns(w: World, id: ScanId, restarts: bool)
    requires StoresOk(w.st) && id in w.st.ledger && !Terminal(w.st, id) && (id in w.st.queue || id in w.st.running)
    ensures CanComeBack(w, id, restarts)
  {
    Here(w, restarts);
    Then(w, w, Report(id, FAILED), restarts);
    FailureReturns(w, World(Elsewhere(w.st, Report(id, FAILED)), w.requests), id, restarts);
  }

  lemma AbandonerReturns(w: World, id: ScanId, restarts: bool)
    requires StoresOk(w.st) && id in w.st.ledger && !Terminal(w.st, id) && id !in w.st.queue
    requires !Unreportable(w.st, id, restarts)
    ensures CanComeBack(w, id, restarts)
  {
    Here(w, restarts);
    var u := w;
    if id in w.st.told {
      Then(w, w, Restart, restarts);
      u := World(w.st.(told := {}), w.requests);
    }
    Then(w, u, Abandon(id, false), restarts);
    FailureReturns(w, World(Abandoned(u.st, id, false), u.requests), id, restarts);
  }

  lemma RequestReturns(w: World, n: nat, id: ScanId, restarts: bool)
    requires n in w.requests && Undecided(w.requests[n].pc, id)
    ensures CanComeBack(w, id, restarts)
  {
    Here(w, restarts);
    var u := w;
    if w.requests[n].pc.Charged? {
      Then(w, w, Publish(n, false), restarts);
      u := Next(w, Publish(n, false));
    }
    Then(w, u, Release(n, true), restarts);
    assert id !in Next(u, Release(n, true)).st.ledger;
  }

  /** Exactly the credits that are not stuck can still be returned, in any reachable state, whether or not Discovery is
      restarted again. */
  lemma CreditComesBackIff(w: World, steps: seq<Step>, id: ScanId, restarts: bool)
    requires Start(w) && Run(w, steps) && id in Final(w, steps).st.ledger
    ensures CanComeBack(Final(w, steps), id, restarts) <==> !Stuck(Final(w, steps), id, restarts)
  {
    StartHolds(w, steps);
    var u := Final(w, steps);
    if Stuck(u, id, restarts) {
      forall v | Reaches(u, v, restarts) ensures id in v.st.ledger {
        var more :| Run(u, more) && Final(u, more) == v && (restarts || Restart !in more);
        StuckForGood(w.st.issued.Keys, u, more, id, restarts);
      }
    } else if n :| n in u.requests && Undecided(u.requests[n].pc, id) {
      RequestReturns(u, n, id, restarts);
    } else if (id, FAILED) in u.st.reports {
      Here(u, restarts);
      FailureReturns(u, u, id, restarts);
    } else if id in u.st.queue || id in u.st.running {
      ScannerReturns(u, id, restarts);
    } else {
      AbandonerReturns(u, id, restarts);
    }
  }

  /** The publish fails; release and delete have their effect or not. */
  lemma RollsBack(w: World, st: Stores, requests: map<nat, Request>, n: nat, r: Request, released: bool, forgot: bool)
    requires r.pc.Charged? && Reaches(w, World(st, requests[n := r]), false)
    ensures var id := r.pc.id;
            var lost := !released && id in st.ledger;
            Reaches(w, World(WithoutEntries(WithoutCredit(st, id, released), id, forgot),
                             requests[n := r.(pc := RolledBack(id, lost, !forgot))]), false)
  {
    var id := r.pc.id;
    var r1 := r.(pc := Undoing(id, true, false));
    var r2 := r.(pc := Undoing(id, false, !released && id in st.ledger));
    ThenRequest(w, st, requests, r, Publish(n, false));
    ThenRequest(w, st, requests, r1, Release(n, released));
    ThenRequest(w, WithoutCredit(st, id, released), requests, r2, Forget(n, forgot));
  }

  /** A rollback that could not release the credit but did delete the pending record sticks it, whatever the state the
      request found. */
  lemma RollbackSticks(w: World, n: nat, r: Request, id: ScanId) returns (v: World)
    requires Start(w) && w.st.plans && r.family.WalletScan? && r.pc.Looking? && Admits(w.st, r)
    requires id !in w.st.issued && id != NIL_SCAN
    ensures Reaches(w, v, false) && n in v.requests && v.requests[n].pc == RolledBack(id, true, false)
    ensures id in v.st.ledger && Stuck(v, id, true)
  {
    var w1 := GoesThrough(w, n, r, id);
    RollsBack(w, w1.st, w.requests, n, r.(pc := Charged(id)), false, true);
    v := World(WithoutEntries(w1.st, id, true), w.requests[n := r.(pc := RolledBack(id, true, false))]);
    EnteredThenForgotten(w.st, r, id);
  }

  /** Without its pending record a charged wallet scan that was never published is orphaned. */
  lemma EnteredThenForgotten(st: Stores, r: Request, id: ScanId)
    requires StoresOk(st) && st.plans && r.family.WalletScan? && id !in st.issued
    ensures var v := WithoutEntries(EnteredStores(st, r, id), id, true); id in v.ledger && Orphaned(v, id, true)
  {
  }

  /** So does a user who deletes a queued wallet scan, if the scanner that takes it dies. */
  lemma DeleteSticks(base: set<ScanId>, w: World, n: nat, id: ScanId) returns (v: World)
    requires Inv(base, w) && n in w.requests && w.requests[n].pc == Accepted(id) && w.requests[n].family.WalletScan?
    requires id in w.st.queue && id in w.st.ledger && !Terminal(w.st, id) && (id, FAILED) !in w.st.reports
    ensures Reaches(w, v, false) && id in v.st.ledger && Stuck(v, id, true)
  {
    assert RequestOk(base, w.st, w.requests[n]);
    var st1 := Hidden(w.st, id);
    var st2 := st1.(records := st1.records - {id});
    var st3 := st2.(queue := st2.queue - {id}, running := st2.running + {id});
    v := World(st3.(running := st3.running - {id}), w.requests);
    Here(w, false);
    ThenElsewhere(w, w, UserDeletes(id));
    ThenElsewhere(w, World(st1, w.requests), DropRecord(id));
    ThenElsewhere(w, World(st2, w.requests), Take(id));
    ThenElsewhere(w, World(st3, w.requests), Die(id));
    forall m | m in v.requests ensures !Undecided(v.requests[m].pc, id) {
      assert m != n ==> PairOk(w.st, w.requests[m], w.requests[n]);
    }
  }

  /** A TLS scan that its scanner lost, and whose report the abandoner lost, waits for a restart: until then its credit
      is stuck, and only until then. */
  lemma LostReportSticks(base: set<ScanId>, w: World, n: nat, id: ScanId) returns (v: World)
    requires Inv(base, w) && n in w.requests && w.requests[n].pc == Accepted(id) && w.requests[n].family.TlsScan?
    requires id in w.st.queue && id in w.st.ledger && id !in w.st.told && !Terminal(w.st, id)
    requires (id, FAILED) !in w.st.reports
    ensures Reaches(w, v, false) && id in v.st.ledger && Stuck(v, id, false) && !Stuck(v, id, true)
  {
    assert RequestOk(base, w.st, w.requests[n]);
    var st1 := w.st.(queue := w.st.queue - {id}, running := w.st.running + {id});
    var st2 := st1.(running := st1.running - {id});
    v := World(Abandoned(st2, id, true), w.requests);
    Here(w, false);
    ThenElsewhere(w, w, Take(id));
    ThenElsewhere(w, World(st1, w.requests), Die(id));
    ThenElsewhere(w, World(st2, w.requests), Abandon(id, true));
    forall m | m in v.requests ensures !Undecided(v.requests[m].pc, id) {
      assert m != n ==> PairOk(w.st, w.requests[m], w.requests[n]);
    }
  }

  /* ---- A request that stalls ---- */

  /** The abandoner's report gets through, or has got through already. */
  predicate WillFail(st: Stores, id: ScanId) {
    id in st.told ==> (id, FAILED) in st.reports
  }

  /** The abandoner fails a reserved scan that has no message. */
  lemma AbandonerEnds(base: set<ScanId>, w: World, r: Request) returns (st: Stores)
    requires Inv(base, w) && RequestOk(base, w.st, r) && Entered(r.pc) && !r.pc.Accepted?
    requires r.pc.id in w.st.ledger && WillFail(w.st, r.pc.id)
    ensures r.pc.id !in w.st.rows && Reaches(w, World(st, w.requests), false)
    ensures st == Applied(w.st.(told := st.told, reports := st.reports), r.pc.id, FAILED, 0)
  {
    var id := r.pc.id;
    Here(w, false);
    var u := w.st;
    if (id, FAILED) !in u.reports {
      ThenElsewhere(w, w, Abandon(id, false));
      u := Abandoned(w.st, id, false);
    }
    ThenElsewhere(w, World(u, w.requests), Apply(id, FAILED, 0));
    st := Applied(u, id, FAILED, 0);
  }

  /** A charged request that stalls long enough for the abandoner is accepted without its credit. */
  lemma StalledAcceptance(base: set<ScanId>, w: World, n: nat) returns (v: World)
    requires Inv(base, w) && n in w.requests && w.requests[n].pc.Charged?
    requires w.requests[n].pc.id in w.st.ledger && WillFail(w.st, w.requests[n].pc.id)
    ensures var id := w.requests[n].pc.id;
            && Reaches(w, v, false) && n in v.requests && v.requests[n].pc == Accepted(id)
            && id !in v.st.ledger && Failed(v.st, id)
  {
    var r := w.requests[n];
    var st := AbandonerEnds(base, w, r);
    assert w.requests[n := r] == w.requests;
    ThenRequest(w, st, w.requests, r, Publish(n, true));
    v := World(WithMessage(st, r.pc.id, true), w.requests[n := r.(pc := Accepted(r.pc.id))]);
  }

  /* ---- A user who deletes a running scan ---- */

  /** The delete hides the row and clears the reservation. */
  lemma DeleteClears(base: set<ScanId>, w: World, r: Request) returns (st: Stores)
    requires Inv(base, w) && RequestOk(base, w.st, r) && r.pc.Accepted? && Live(w.st, r)
    ensures Reaches(w, World(st, w.requests), false)
    ensures st == Hidden(w.st, r.pc.id).(reservations := Unreserve(w.st.reservations, r.pc.id))
    ensures Open(st, r) && Unfinished(st, r)
  {
    var st1 := Hidden(w.st, r.pc.id);
    st := st1.(reservations := Unreserve(st1.reservations, r.pc.id));
    Here(w, false);
    ThenElsewhere(w, w, UserDeletes(r.pc.id));
    ThenElsewhere(w, World(st1, w.requests), DropReservation(r.pc.id));
  }

  /** Deleting an unfinished wallet scan frees its wallet: a second scan is accepted while the first still runs. */
  lemma DeleteFreesTheWallet(base: set<ScanId>, w: World, m: nat, n: nat, id: ScanId) returns (v: World)
    requires Inv(base, w) && m in w.requests && w.requests[m].pc.Accepted? && Live(w.st, w.requests[m])
    requires w.requests[m].family.WalletScan? && n !in w.requests && id !in w.st.issued && id != NIL_SCAN
    requires !RowsBlock(Hidden(w.st, w.requests[m].pc.id), w.requests[m])
    ensures Reaches(w, v, false) && m in v.requests && n in v.requests && SameWallet(v.requests[m], v.requests[n])
    ensures Unfinished(v.st, v.requests[m]) && v.requests[m].pc.Accepted?
    ensures Unfinished(v.st, v.requests[n]) && v.requests[n].pc.Accepted?
  {
    var r := w.requests[m];
    assert RequestOk(base, w.st, r);
    var st := DeleteClears(base, w, r);
    var w1 := GoesThrough(World(st, w.requests), n, r.(pc := Looking), id);
    Further(w, World(st, w.requests), w1, false);
    ThenRequest(w, w1.st, w.requests, r.(pc := Charged(id)), Publish(n, true));
    v := World(WithMessage(w1.st, id, true), w.requests[n := r.(pc := Accepted(id))]);
    assert v.requests[m] == r && v.st.rows == st.rows && id !in st.rows;
  }

  /* ---- A pending record that could not be deleted ---- */

  /** The rollback of a wallet request could not delete its pending record. */
  predicate LeftRecord(w: World, n: nat) {
    n in w.requests && w.requests[n].family.WalletScan? && w.requests[n].pc.RolledBack? && w.requests[n].pc.lostRecord
  }

  /** The abandoner never lists the scan, and it has no row. */
  predicate OutOfReach(st: Stores, id: ScanId) {
    id !in st.ledger && id !in st.rows
  }

  /** Some request for the same wallet has a scan now and had none before. */
  ghost predicate Newcomer(w: World, v: World, n: nat, m: nat)
    requires n in w.requests
  {
    && m in v.requests && SameWallet(v.requests[m], w.requests[n]) && HasId(v.requests[m].pc)
    && !(m in w.requests && HasId(w.requests[m].pc))
  }

  predicate SameRequest(a: Request, b: Request) {
    a.user == b.user && a.family == b.family && a.target == b.target
  }

  lemma RequestStays(w: World, s: Step, m: nat)
    requires Enabled(w, s) && m in w.requests
    ensures m in Next(w, s).requests && SameRequest(Next(w, s).requests[m], w.requests[m])
    ensures (ByRequest(s) ==> s.n != m) ==> Next(w, s).requests[m] == w.requests[m]
  {
  }

  lemma {:induction false} RequestKeepsItsName(w: World, steps: seq<Step>, m: nat)
    requires Run(w, steps) && m in w.requests
    ensures m in Final(w, steps).requests && SameRequest(Final(w, steps).requests[m], w.requests[m])
    decreases |steps|
  {
    if steps != [] {
      RequestStays(w, steps[0], m);
      RequestKeepsItsName(Next(w, steps[0]), steps[1..], m);
    }
  }

  lemma OutOfReachElsewhere(base: set<ScanId>, st: Stores, s: Step, r: Request)
    requires Possible(st, s) && r.pc.RolledBack? && RequestOk(base, st, r) && OutOfReach(st, r.pc.id)
    ensures OutOfReach(Elsewhere(st, s), r.pc.id)
  {
  }

  lemma OutOfReachByRequest(st: Stores, r: Request, s: Step, left: Request)
    requires ByRequest(s) && Ready(st, r.pc, s) && PairOk(st, r, left) && left.pc.RolledBack? && left.pc.id in st.issued
    requires OutOfReach(st, left.pc.id)
    ensures OutOfReach(StoresAfter(st, r, s), left.pc.id)
  {
    RequestStands(st, r, s, left.pc.id);
  }

  lemma StaysBlocked(base: set<ScanId>, w: World, s: Step, n: nat)
    requires Inv(base, w) && Enabled(w, s) && LeftRecord(w, n) && OutOfReach(w.st, w.requests[n].pc.id)
    ensures n in Next(w, s).requests && Next(w, s).requests[n] == w.requests[n]
    ensures OutOfReach(Next(w, s).st, w.requests[n].pc.id)
  {
    assert RequestOk(base, w.st, w.requests[n]);
    RequestStays(w, s, n);
    if ByRequest(s) {
      assert s.n != n;
      OutOfReachByRequest(w.st, w.requests[s.n], s, w.requests[n]);
    } else if !s.Arrive? {
      OutOfReachElsewhere(base, w.st, s, w.requests[n]);
    }
  }

  /** The reservation stands, so nobody else gets it. */
  lemma NoNewId(base: set<ScanId>, st: Stores, r: Request, s: Step, left: Request)
    requires ByRequest(s) && Ready(st, r.pc, s) && SameWallet(r, left) && !HasId(r.pc)
    requires left.pc.RolledBack? && left.pc.lostRecord && RequestOk(base, st, left) && OutOfReach(st, left.pc.id)
    ensures !HasId(After(st, r, s).pc)
  {
    assert Live(st, left);
  }

  lemma NoNewcomer(base: set<ScanId>, w: World, s: Step, n: nat, m: nat)
    requires Enabled(w, s) && LeftRecord(w, n) && RequestOk(base, w.st, w.requests[n])
    requires OutOfReach(w.st, w.requests[n].pc.id)
    ensures !Newcomer(w, Next(w, s), n, m)
  {
    if m in w.requests {
      RequestStays(w, s, m);
      if ByRequest(s) && s.n == m && SameWallet(w.requests[m], w.requests[n]) && !HasId(w.requests[m].pc) {
        NoNewId(base, w.st, w.requests[m], s, w.requests[n]);
      }
    }
  }

  lemma {:induction false} BlockedForGood(base: set<ScanId>, w: World, steps: seq<Step>, n: nat, m: nat)
    requires Inv(base, w) && Run(w, steps) && LeftRecord(w, n) && OutOfReach(w.st, w.requests[n].pc.id)
    ensures !Newcomer(w, Final(w, steps), n, m)
    decreases |steps|
  {
    if steps != [] {
      var v := Next(w, steps[0]);
      StaysBlocked(base, w, steps[0], n);
      InvStep(base, w, steps[0]);
      BlockedForGood(base, v, steps[1..], n, m);
      assert RequestOk(base, w.st, w.requests[n]);
      NoNewcomer(base, w, steps[0], n, m);
      if m in v.requests {
        RequestKeepsItsName(v, steps[1..], m);
      }
    }
  }

  ghost predicate CanBeTaken(w: World, n: nat)
    requires n in w.requests
  {
    exists v, m :: Reaches(w, v, true) && Newcomer(w, v, n, m)
  }

  /** A record that is left and out of the abandoner's reach keeps the wallet from every later request, in every
      continuation of every run. */
  lemma LostRecordBlocks(w: World, steps: seq<Step>, n: nat)
    requires Start(w) && Run(w, steps) && LeftRecord(Final(w, steps), n)
    requires OutOfReach(Final(w, steps).st, Final(w, steps).requests[n].pc.id)
    ensures !CanBeTaken(Final(w, steps), n)
  {
    StartHolds(w, steps);
    var u := Final(w, steps);
    forall v, m | Reaches(u, v, true) ensures !Newcomer(u, v, n, m) {
      var more :| Run(u, more) && Final(u, more) == v && (true || Restart !in more);
      BlockedForGood(w.st.issued.Keys, u, more, n, m);
    }
  }

  /** Such a state is reached from any start: the publish fails, the release goes through, the delete does not. */
  lemma LostRecordIsReached(w: World, n: nat, r: Request, id: ScanId) returns (v: World)
    requires Start(w) && r.family.WalletScan? && r.pc.Looking? && Admits(w.st, r)
    requires id !in w.st.issued && id != NIL_SCAN
    ensures Reaches(w, v, false) && LeftRecord(v, n) && v.requests[n].pc.id == id && OutOfReach(v.st, id)
  {
    var w1 := GoesThrough(w, n, r, id);
    RollsBack(w, w1.st, w.requests, n, r.(pc := Charged(id)), true, false);
    v := World(WithoutCredit(w1.st, id, true), w.requests[n := r.(pc := RolledBack(id, false, true))]);
  }

  /** A failed row does not make the newest row one in flight. */
  lemma TerminalRowsDoNotBlock(rows: map<ScanId, Row>, id: ScanId, row: Row, user: Uuid, target: string)
    requires id !in rows && IsTerminal(row.state) && NewestInFlight(rows[id := row], user, target)
    ensures NewestInFlight(rows, user, target)
  {
    var more := rows[id := row];
    var x :| x in more && !IsTerminal(more[x].state) && Newest(more, user, target, x);
    assert x in rows && forall y :: y in rows ==> y in more && more[y] == rows[y];
    assert Newest(rows, user, target, x);
  }

  /** The left reservation stands, and no row of the wallet is in flight. */
  predicate Standing(st: Stores, r: Request) {
    HasId(r.pc) && Key(r) in st.reservations && st.reservations[Key(r)] == r.pc.id && !RowsBlock(st, r)
  }

  /** Once the abandoner failed the scan, the next request judges the reservation stale and takes the wallet. */
  lemma StaleIsTaken(w: World, r: Request, m: nat)
    requires r.family.WalletScan? && w.st.results && m !in w.requests && Standing(w.st, r) && r.pc.id != NIL_SCAN
    requires Terminal(w.st, r.pc.id) && Visible(w.st.rows[r.pc.id], r.user)
    ensures var st := w.st.(reservations := w.st.reservations - {Key(r)});
            Reaches(w, World(st, w.requests[m := r.(pc := Clear)]), false)
  {
    var id, looking := r.pc.id, r.(pc := Looking);
    var rec := Lookup(w.st, looking, id);
    Arrives(w, m, looking);
    ThenRequest(w, w.st, w.requests, looking, Look(m));
    ThenRequest(w, w.st, w.requests, r.(pc := Judging(id, rec)), Judge(m));
    ThenRequest(w, w.st, w.requests, r.(pc := Purging(id)), Purge(m, true));
    ThenRequest(w, WithoutStale(w.st, r.(pc := Purging(id)), true), w.requests, r.(pc := Listing), List(m));
  }

  /** The wallet of a failed scan is taken, through the stale check if the row is visible. */
  lemma FailedIsTaken(base: set<ScanId>, w: World, n: nat, m: nat, id: ScanId) returns (v: World)
    requires Inv(base, w) && LeftRecord(w, n) && w.st.results && m !in w.requests
    requires id !in w.st.issued && id != NIL_SCAN && Standing(w.st, w.requests[n]) && w.requests[n].pc.id in w.st.rows
    ensures Reaches(w, v, false) && Newcomer(w, v, n, m)
  {
    var r := w.requests[n];
    assert RequestOk(base, w.st, r);
    if w.st.rows[r.pc.id].hidden {
      var st := w.st.(reservations := Unreserve(w.st.reservations, r.pc.id));
      Here(w, false);
      ThenElsewhere(w, w, DropReservation(r.pc.id));
      v := GoesThrough(World(st, w.requests), m, r.(pc := Looking), id);
      Further(w, World(st, w.requests), v, false);
    } else {
      var st := w.st.(reservations := w.st.reservations - {Key(r)});
      StaleIsTaken(w, r, m);
      ThenRequest(w, st, w.requests, r.(pc := Clear), Hold(m, id, true));
      v := World(WithEntries(st, r.(pc := Clear), id), w.requests[m := r.(pc := Holding(id))]);
    }
  }

  /** While the left reservation stands and no other row blocks, another request gets the wallet in some continuation if
      the scan is still in the ledger or was failed: the abandoner ends it, or has. */
  lemma LostRecordFrees(base: set<ScanId>, w: World, n: nat, m: nat, id: ScanId)
    requires Inv(base, w) && LeftRecord(w, n) && w.st.results && m !in w.requests
    requires id !in w.st.issued && id != NIL_SCAN && Standing(w.st, w.requests[n])
    requires !OutOfReach(w.st, w.requests[n].pc.id)
    ensures CanBeTaken(w, n)
  {
    var r := w.requests[n];
    assert RequestOk(base, w.st, r);
    Here(w, true);
    var u := w;
    if r.pc.id in w.st.ledger {
      var st := AbandonerEnds(base, w, r);
      u := World(st, w.requests);
      InvReaches(base, w, u, false);
      if NewestInFlight(st.rows, r.user, r.target) {
        TerminalRowsDoNotBlock(w.st.rows, r.pc.id, st.rows[r.pc.id], r.user, r.target);
      }
    } else {
      Here(w, false);
    }
    var v := FailedIsTaken(base, u, n, m, id);
    Further(w, u, v, false);
    assert Newcomer(w, v, n, m) && Reaches(w, v, true);
  }

  /** Both together, where the left reservation stands and no other row blocks. */
  lemma LostRecordBlocksIff(w: World, steps: seq<Step>, n: nat, m: nat, id: ScanId)
    requires Start(w) && Run(w, steps) && LeftRecord(Final(w, steps), n) && m !in Final(w, steps).requests
    requires Final(w, steps).st.results && Standing(Final(w, steps).st, Final(w, steps).requests[n])
    requires id !in Final(w, steps).st.issued && id != NIL_SCAN
    ensures CanBeTaken(Final(w, steps), n) <==> !OutOfReach(Final(w, steps).st, Final(w, steps).requests[n].pc.id)
  {
    StartHolds(w, steps);
    if OutOfReach(Final(w, steps).st, Final(w, steps).requests[n].pc.id) {
      LostRecordBlocks(w, steps, n);
    } else {
      LostRecordFrees(w.st.issued.Keys, Final(w, steps), n, m, id);
    }
  }
}
