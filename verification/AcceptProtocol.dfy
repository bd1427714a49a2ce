/** `POST /discovery/v1/scan` (`internal/handler/discovery.go`) as concurrent requests: in-flight check, purge of a
    stale reservation, pending reservation, quota reservation, publish, and the rollback at each failure. Every step
    interleaves with every other request, with scanners, with the abandoner, with the lifecycle events that persistence
    applies, and with user deletes. */
module AcceptProtocol {
  import opened Domain
  import opened Address

  /** A pending record. `dated` is false when its creation time is zero; `addressed` says that it carries a wallet
      address that passes validation. */
  datatype Record = Record(user: Uuid, family: Family, target: string, dated: bool, addressed: bool)

  datatype Pc =
    | Looking
    | Judging(found: ScanId, rec: Record)
    | Purging(stale: ScanId)
    | Listing
    | Clear
    | Holding(id: ScanId)
    | Charged(id: ScanId)
    | Undoing(id: ScanId, release: bool, lostCredit: bool)
    | Accepted(id: ScanId)
    | Refused
    | RolledBack(id: ScanId, lostCredit: bool, lostRecord: bool)

  datatype Request = Request(user: Uuid, family: Family, target: string, pc: Pc)

  /** A result row: the scan it belongs to, its state, whether its user deleted it, and its creation time. */
  datatype Row = Row(of: Record, state: ScanState, hidden: bool, at: int)

  /** `plans` and `results`: are a plan service and a result repository configured? `reservations` is the wallet index
      of the pending store, by owner and address. `published` are all request messages ever, `queue` those still in the
      work queue, `running` the scans a scanner took from it. `reports` are the lifecycle events in the stream, `told`
      the scans the abandoner remembers to have reported, `gone` those their user deleted, `issued` the scan ids handed
      out so far and for what. */
  datatype Stores = Stores(
    plans: bool, results: bool, reservations: map<(Uuid, string), ScanId>, records: map<ScanId, Record>,
    ledger: set<ScanId>, published: multiset<ScanId>, queue: set<ScanId>, running: set<ScanId>,
    reports: set<(ScanId, ScanState)>, told: set<ScanId>, rows: map<ScanId, Row>, gone: set<ScanId>,
    issued: map<ScanId, Record>)

  datatype World = World(st: Stores, requests: map<nat, Request>)

  function Key(r: Request): (Uuid, string) {
    (r.user, r.target)
  }

  /** A wallet request carries a valid address by the time it gets here. */
  function RecordOf(r: Request): Record {
    Record(r.user, r.family, r.target, true, r.family.WalletScan?)
  }

  /** The record behind a reservation; one whose record is missing comes back without a date. */
  function Lookup(st: Stores, r: Request, id: ScanId): Record {
    if id in st.records then st.records[id] else Record(r.user, WalletScan, r.target, false, false)
  }

  predicate Terminal(st: Stores, id: ScanId) {
    id in st.rows && IsTerminal(st.rows[id].state)
  }

  predicate Failed(st: Stores, id: ScanId) {
    id in st.rows && st.rows[id].state.FAILED?
  }

  /** A row of the wallet table that the user can see. */
  predicate Visible(row: Row, user: Uuid) {
    !row.hidden && row.of.user == user && row.of.family.WalletScan?
  }

  /** `pendingWalletReservationState`: does the reservation block, or is it stale? */
  predicate Blocks(st: Stores, r: Request, found: ScanId, rec: Record) {
    if found == NIL_SCAN then false
    else if st.results && found in st.rows && Visible(st.rows[found], r.user) then !IsTerminal(st.rows[found].state)
    else rec.dated && rec.user == r.user && rec.family.WalletScan? && Lower(rec.target) == Lower(r.target)
  }

  /** The first row of `ListOwnerWalletScansByAddress`: latest creation time, then largest id. */
  predicate Newest(rows: map<ScanId, Row>, user: Uuid, target: string, id: ScanId) {
    && id in rows && Visible(rows[id], user) && Lower(rows[id].of.target) == Lower(target)
    && forall x :: x in rows && Visible(rows[x], user) && Lower(rows[x].of.target) == Lower(target) ==>
                     rows[x].at < rows[id].at || (rows[x].at == rows[id].at && x <= id)
  }

  predicate NewestInFlight(rows: map<ScanId, Row>, user: Uuid, target: string) {
    exists id :: id in rows && !IsTerminal(rows[id].state) && Newest(rows, user, target, id)
  }

  /* What the two halves of the in-flight check come to, case by case. */

  /** A row of the user's wallet that the user did not delete. */
  predicate OfWallet(row: Row, user: Uuid, target: string) {
    !row.hidden && row.of.user == user && row.of.family == WalletScan && Lower(row.of.target) == Lower(target)
  }

  predicate Later(a: Row, x: ScanId, b: Row, y: ScanId) {
    a.at > b.at || (a.at == b.at && x > y)
  }

  /** A row of the wallet later than all others of it decides alone: it blocks exactly if it is unfinished. */
  lemma LatestRowDecides(rows: map<ScanId, Row>, user: Uuid, target: string, id: ScanId)
    requires id in rows && OfWallet(rows[id], user, target)
    requires forall x :: x in rows && x != id && OfWallet(rows[x], user, target) ==> Later(rows[id], id, rows[x], x)
    ensures NewestInFlight(rows, user, target) <==> !IsTerminal(rows[id].state)
  {
    assert Newest(rows, user, target, id);
    forall x | Newest(rows, user, target, x) ensures x == id {
      assert x in rows && OfWallet(rows[x], user, target);
    }
  }

  /** Without a row of the wallet nothing blocks, and rows of others, of other wallets, deleted rows and TLS rows make
      no difference. */
  lemma OtherRowsDoNotCount(rows: map<ScanId, Row>, user: Uuid, target: string, id: ScanId, row: Row)
    requires id !in rows && !OfWallet(row, user, target)
    ensures (forall x :: x in rows ==> !OfWallet(rows[x], user, target)) ==> !NewestInFlight(rows, user, target)
    ensures NewestInFlight(rows[id := row], user, target) <==> NewestInFlight(rows, user, target)
  {
    var more := rows[id := row];
    assert forall x :: x in rows ==> x in more && more[x] == rows[x];
    forall x | x in rows ensures Newest(more, user, target, x) <==> Newest(rows, user, target, x) {
      assert !(Visible(row, user) && Lower(row.of.target) == Lower(target));
    }
    assert !Newest(more, user, target, id);
  }

  /** What a reservation is worth: without an id it is stale; with a row the user can see, the row decides; otherwise it
      blocks exactly if its record is dated and is this user's record of this wallet. */
  lemma WhatBlocks(st: Stores, r: Request, found: ScanId, rec: Record)
    ensures found == NIL_SCAN ==> !Blocks(st, r, found, rec)
    ensures var seen := st.results && found in st.rows && !st.rows[found].hidden && st.rows[found].of.user == r.user
                        && st.rows[found].of.family == WalletScan;
            found != NIL_SCAN ==>
              && (seen ==> (Blocks(st, r, found, rec) <==> !IsTerminal(st.rows[found].state)))
              && (!seen && (!rec.dated || rec.user != r.user || rec.family == TlsScan) ==> !Blocks(st, r, found, rec))
              && (!seen && rec.dated && rec.user == r.user && rec.family == WalletScan ==>
                    (Blocks(st, r, found, rec) <==> Lower(rec.target) == Lower(r.target)))
    ensures found !in st.records && found !in st.rows ==> !Blocks(st, r, found, Lookup(st, r, found))
  {
  }

  function Unreserve(reservations: map<(Uuid, string), ScanId>, id: ScanId): map<(Uuid, string), ScanId> {
    map k | k in reservations && reservations[k] != id :: reservations[k]
  }

  /** How a quota reservation ends; `Unanswered` took a credit and reports an error. */
  datatype Charging = Granted | Denied | Unanswered

  /** `took` says whether a call had its effect: where the handler ignores the answer, that is all that matters. */
  datatype Step =
    | Arrive(n: nat, user: Uuid, family: Family, target: string)
    | Look(n: nat)
    | Judge(n: nat)
    | Purge(n: nat, took: bool)
    | List(n: nat)
    | Refuse(n: nat)
    | Hold(n: nat, id: ScanId, answered: bool)
    | Charge(n: nat, how: Charging)
    | Publish(n: nat, ok: bool)
    | Release(n: nat, took: bool)
    | Forget(n: nat, took: bool)
    | Take(scan: ScanId)
    | Die(scan: ScanId)
    | Report(scan: ScanId, state: ScanState)
    | Abandon(scan: ScanId, lost: bool)
    | Restart
    | Apply(scan: ScanId, state: ScanState, at: int)
    | UserDeletes(scan: ScanId)
    | DropRecord(scan: ScanId)
    | DropReservation(scan: ScanId)

  /** Deleted by its user, or in a terminal state: its pending entries may be cleared. */
  predicate Freed(st: Stores, scan: ScanId) {
    scan in st.gone || Terminal(st, scan)
  }

  /** On the abandoner's list: reserved, without a visible terminal row, and with its message out of the queue. */
  predicate Missing(st: Stores, scan: ScanId) {
    scan in st.ledger && scan !in st.queue && !(Terminal(st, scan) && !st.rows[scan].hidden)
  }

  /** `publishAbandonedScan` can name the target: always for TLS, from the pending record for a wallet. */
  predicate Addressable(st: Stores, scan: ScanId) {
    scan in st.issued && (st.issued[scan].family.TlsScan? || (scan in st.records && st.records[scan].addressed))
  }

  predicate Applicable(st: Stores, scan: ScanId, state: ScanState) {
    && (scan, state) in st.reports && scan in st.issued
    && if scan in st.rows then ValidTransition(st.rows[scan].state, state) else st.plans ==> scan in st.ledger
  }

  /** What the abandoner may report: reserved scans that are out of the queue and not visibly over, and of those the TLS
      scans, and the wallet scans whose pending record has a usable address. */
  lemma ReportableScans(st: Stores, scan: ScanId)
    requires scan in st.issued
    ensures Missing(st, scan) && Addressable(st, scan) <==>
            && scan in st.ledger && scan !in st.queue
            && (scan in st.rows ==> st.rows[scan].hidden || !IsTerminal(st.rows[scan].state))
            && (st.issued[scan].family == WalletScan ==> scan in st.records && st.records[scan].addressed)
  {
  }

  /* ---- When a step may happen ---- */

  predicate ByRequest(s: Step) {
    || s.Look? || s.Judge? || s.Purge? || s.List? || s.Refuse? || s.Hold?
    || s.Charge? || s.Publish? || s.Release? || s.Forget?
  }

  predicate Refusable(pc: Pc) {
    pc.Looking? || pc.Judging? || pc.Listing? || pc.Clear?
  }

  /** Refusing is possible at any point before the reservation is held: a failed lookup, a policy, a reservation that
      was not stored. */
  predicate Ready(st: Stores, pc: Pc, s: Step) {
    match s
    case Look(_) => pc.Looking?
    case Judge(_) => pc.Judging?
    case Purge(_, _) => pc.Purging?
    case List(_) => pc.Listing?
    case Refuse(_) => Refusable(pc)
    case Hold(_, id, _) => pc.Clear? && id !in st.issued && id != NIL_SCAN
    case Charge(_, _) => pc.Holding?
    case Publish(_, _) => pc.Charged?
    case Release(_, _) => pc.Undoing? && pc.release
    case Forget(_, _) => pc.Undoing? && !pc.release
    case _ => false
  }

  /** A scanner reports on scans it has, and may die. The abandoner may act at any time on what it can list and does not
      remember to have reported: its grace only delays it, and a request can stall for longer. Its report on a wallet is
      acknowledged, the one on a TLS scan can be lost. Persistence applies an event in the stream if the state machine
      allows it, and creates a row only for a reserved scan when plans are configured. A user can name scans that were
      accepted or have a row. */
  predicate Possible(st: Stores, s: Step) {
    match s
    case Take(scan) => scan in st.queue
    case Die(scan) => scan in st.running
    case Report(scan, _) => scan in st.queue || scan in st.running
    case Abandon(scan, lost) =>
      && Missing(st, scan) && Addressable(st, scan) && scan !in st.told
      && (lost ==> st.issued[scan].family.TlsScan?)
    case Restart => true
    case Apply(scan, state, _) => Applicable(st, scan, state)
    case UserDeletes(scan) => scan in st.published || scan in st.rows
    case DropRecord(scan) => Freed(st, scan)
    case DropReservation(scan) => Freed(st, scan)
    case _ => false
  }

  predicate Enabled(w: World, s: Step) {
    if s.Arrive? then s.n !in w.requests
    else if ByRequest(s) then s.n in w.requests && Ready(w.st, w.requests[s.n].pc, s)
    else Possible(w.st, s)
  }

  /* ---- What a request does to the stores ---- */

  /** `DeleteWalletReservation` compares before it deletes. */
  function WithoutStale(st: Stores, r: Request, took: bool): Stores
    requires r.pc.Purging?
  {
    var hit := took && Key(r) in st.reservations && st.reservations[Key(r)] == r.pc.stale;
    if hit then st.(reservations := st.reservations - {Key(r)}) else st
  }

  predicate Open(st: Stores, r: Request) {
    r.family.WalletScan? ==> Key(r) !in st.reservations
  }

  function Issue(st: Stores, r: Request, id: ScanId): Stores {
    st.(issued := st.issued[id := RecordOf(r)])
  }

  function Put(st: Stores, r: Request, id: ScanId): Stores {
    st.(records := st.records[id := RecordOf(r)],
        reservations := if r.family.WalletScan? then st.reservations[Key(r) := id] else st.reservations)
  }

  /** The pending entries of a new scan: `ReserveWallet` inserts only if the address is free, `PutTLS` always. */
  function WithEntries(st: Stores, r: Request, id: ScanId): Stores {
    if Open(st, r) then Put(Issue(st, r, id), r, id) else Issue(st, r, id)
  }

  /** `reserveScanQuota`: no plan service, no ledger row. */
  function WithCredit(st: Stores, id: ScanId, how: Charging): Stores {
    if st.plans && !how.Denied? then st.(ledger := st.ledger + {id}) else st
  }

  function WithMessage(st: Stores, id: ScanId, ok: bool): Stores {
    if ok then st.(published := st.published + multiset{id}, queue := st.queue + {id}) else st
  }

  function WithoutCredit(st: Stores, id: ScanId, took: bool): Stores {
    if took then st.(ledger := st.ledger - {id}) else st
  }

  function WithoutEntries(st: Stores, id: ScanId, took: bool): Stores {
    if took then st.(records := st.records - {id}, reservations := Unreserve(st.reservations, id)) else st
  }

  function StoresAfter(st: Stores, r: Request, s: Step): Stores
    requires Ready(st, r.pc, s)
  {
    match s
    case Purge(_, took) => WithoutStale(st, r, took)
    case Hold(_, id, _) => WithEntries(st, r, id)
    case Charge(_, how) => WithCredit(st, r.pc.id, how)
    case Publish(_, ok) => WithMessage(st, r.pc.id, ok)
    case Release(_, took) => WithoutCredit(st, r.pc.id, took)
    case Forget(_, took) => WithoutEntries(st, r.pc.id, took)
    case _ => st
  }

  /* ---- and where it goes ---- */

  /** `checkWalletScanInFlight` starts by reading the reservation of the wallet; TLS has no such check. */
  function Found(st: Stores, r: Request): Pc {
    if r.family.TlsScan? then Clear
    else if Key(r) !in st.reservations then Listing
    else Judging(st.reservations[Key(r)], Lookup(st, r, st.reservations[Key(r)]))
  }

  /** The second query of the check, on the result rows. */
  predicate RowsBlock(st: Stores, r: Request) {
    st.results && NewestInFlight(st.rows, r.user, r.target)
  }

  /** A reservation that was stored but not answered is left behind: the handler answers an error at once. */
  function AfterHold(st: Stores, r: Request, id: ScanId, answered: bool): Pc {
    if !Open(st, r) then Refused else if answered then Holding(id) else RolledBack(id, false, true)
  }

  function AfterCharge(st: Stores, id: ScanId, how: Charging): Pc {
    if !st.plans || how.Granted? then Charged(id) else Undoing(id, false, how.Unanswered?)
  }

  function PcAfter(st: Stores, r: Request, s: Step): Pc
    requires Ready(st, r.pc, s)
  {
    match s
    case Look(_) => Found(st, r)
    case Judge(_) => if Blocks(st, r, r.pc.found, r.pc.rec) then Refused else Purging(r.pc.found)
    case Purge(_, _) => Listing
    case List(_) => if RowsBlock(st, r) then Refused else Clear
    case Hold(_, id, answered) => AfterHold(st, r, id, answered)
    case Charge(_, how) => AfterCharge(st, r.pc.id, how)
    case Publish(_, ok) => if ok then Accepted(r.pc.id) else Undoing(r.pc.id, true, false)
    case Release(_, took) => Undoing(r.pc.id, false, !took && r.pc.id in st.ledger)
    case Forget(_, took) => RolledBack(r.pc.id, r.pc.lostCredit, !took)
    case _ => Refused
  }

  /* ---- What happens elsewhere ---- */

  /** Persistence applies an event: the row appears or moves, and a failure gives the credit back. */
  function Applied(st: Stores, scan: ScanId, state: ScanState, at: int): Stores
    requires scan in st.issued
  {
    var row := if scan in st.rows then st.rows[scan].(state := state) else Row(st.issued[scan], state, false, at);
    st.(rows := st.rows[scan := row], ledger := if state.FAILED? then st.ledger - {scan} else st.ledger)
  }

  function Hidden(st: Stores, scan: ScanId): Stores {
    st.(gone := st.gone + {scan},
        rows := if scan in st.rows then st.rows[scan := st.rows[scan].(hidden := true)] else st.rows)
  }

  /** The abandoner's report reaches the stream unless it is lost. */
  function Abandoned(st: Stores, scan: ScanId, lost: bool): Stores {
    st.(told := st.told + {scan}, reports := if lost then st.reports else st.reports + {(scan, FAILED)})
  }

  function Elsewhere(st: Stores, s: Step): Stores
    requires Possible(st, s)
  {
    match s
    case Take(scan) => st.(queue := st.queue - {scan}, running := st.running + {scan})
    case Die(scan) => st.(running := st.running - {scan})
    case Report(scan, state) => st.(reports := st.reports + {(scan, state)})
    case Abandon(scan, lost) => Abandoned(st, scan, lost)
    case Restart => st.(told := {})
    case Apply(scan, state, at) => Applied(st, scan, state, at)
    case UserDeletes(scan) => Hidden(st, scan)
    case DropRecord(scan) => st.(records := st.records - {scan})
    case DropReservation(scan) => st.(reservations := Unreserve(st.reservations, scan))
  }

  function Moved(w: World, n: nat, st: Stores, pc: Pc): World
    requires n in w.requests
  {
    World(st, w.requests[n := w.requests[n].(pc := pc)])
  }

  function Next(w: World, s: Step): World
    requires Enabled(w, s)
  {
    if s.Arrive? then World(w.st, w.requests[s.n := Request(s.user, s.family, s.target, Looking)])
    else if ByRequest(s) then
      Moved(w, s.n, StoresAfter(w.st, w.requests[s.n], s), PcAfter(w.st, w.requests[s.n], s))
    else World(Elsewhere(w.st, s), w.requests)
  }

  ghost predicate Run(w: World, steps: seq<Step>)
    decreases |steps|
  {
    steps == [] || (Enabled(w, steps[0]) && Run(Next(w, steps[0]), steps[1..]))
  }

  ghost function Final(w: World, steps: seq<Step>): World
    requires Run(w, steps)
    decreases |steps|
  {
    if steps == [] then w else Final(Next(w, steps[0]), steps[1..])
  }

  /** Every id in the stores was handed out. */
  ghost predicate StoresOk(st: Stores) {
    && st.records.Keys <= st.issued.Keys && st.rows.Keys <= st.issued.Keys && st.ledger <= st.issued.Keys
    && st.gone <= st.issued.Keys && st.queue <= st.issued.Keys && st.running <= st.issued.Keys
    && st.told <= st.issued.Keys && (forall id :: id in st.published ==> id in st.issued)
    && (forall id, state :: (id, state) in st.reports ==> id in st.issued)
    && (forall k :: k in st.reservations ==> st.reservations[k] in st.issued)
  }

  /** Any stores at all, with no request under way. */
  ghost predicate Start(w: World) {
    w.requests == map[] && StoresOk(w.st)
  }

  /* ---- What each request owns ---- */

  predicate HasId(pc: Pc) {
    pc.Holding? || pc.Charged? || pc.Undoing? || pc.Accepted? || pc.RolledBack?
  }

  /** Its pending entries were put and not taken back. */
  predicate Entered(pc: Pc) {
    HasId(pc) && (pc.RolledBack? ==> pc.lostRecord)
  }

  /** The request keeps its target taken. */
  predicate Live(st: Stores, r: Request) {
    Entered(r.pc) && !Freed(st, r.pc.id)
  }

  /** Its pending record is in the store and, for a wallet, the reservation of its address is its own. */
  predicate Owns(st: Stores, r: Request, id: ScanId) {
    && id in st.records && st.records[id] == RecordOf(r)
    && (r.family.WalletScan? ==> Key(r) in st.reservations && st.reservations[Key(r)] == id)
  }

  /** Without a message, all that can have happened to a reserved scan is that the abandoner failed it. */
  ghost predicate Offstage(st: Stores, id: ScanId) {
    && id !in st.published && id !in st.queue && id !in st.running
    && (forall state :: (id, state) in st.reports ==> state.FAILED? && st.plans)
    && (id in st.rows ==> st.rows[id].state.FAILED? && st.plans) && (id in st.gone ==> id in st.rows)
  }

  /** No reservation but the one of the request's own wallet can name its scan. */
  ghost predicate OnlyHere(st: Stores, r: Request, id: ScanId) {
    forall k :: k in st.reservations && st.reservations[k] == id ==> r.family.WalletScan? && k == Key(r)
  }

  ghost predicate Identified(base: set<ScanId>, st: Stores, r: Request, id: ScanId) {
    && id in st.issued && st.issued[id] == RecordOf(r) && id !in base && id != NIL_SCAN && OnlyHere(st, r, id)
    && (id in st.rows ==> st.rows[id].of == RecordOf(r) && (st.rows[id].hidden ==> id in st.gone))
    && (id in st.told ==> r.family.TlsScan? || (id, FAILED) in st.reports)
  }

  /** Exactly the charged scans that did not fail have their credit. */
  predicate Credited(st: Stores, id: ScanId, charged: bool) {
    (id in st.ledger <==> charged && !Failed(st, id)) && (charged ==> st.plans)
  }

  ghost predicate PcOk(st: Stores, r: Request) {
    match r.pc
    case Judging(found, _) => found in st.issued && r.family.WalletScan?
    case Purging(stale) => stale in st.issued && r.family.WalletScan?
    case Holding(id) => id !in st.ledger && id !in st.rows && forall state :: (id, state) !in st.reports
    case Charged(id) => Credited(st, id, st.plans)
    case Undoing(id, release, lostCredit) => Credited(st, id, if release then st.plans else lostCredit)
    case Accepted(id) => st.published[id] == 1 && Credited(st, id, st.plans)
    case RolledBack(id, lostCredit, lostRecord) =>
      && Credited(st, id, lostCredit)
      && (!lostRecord ==> id !in st.records && forall k :: k in st.reservations ==> st.reservations[k] != id)
    case _ => true
  }

  ghost predicate RequestOk(base: set<ScanId>, st: Stores, r: Request) {
    && (HasId(r.pc) ==> Identified(base, st, r, r.pc.id))
    && (Live(st, r) ==> Owns(st, r, r.pc.id))
    && (HasId(r.pc) && !r.pc.Accepted? ==> Offstage(st, r.pc.id))
    && PcOk(st, r)
  }

  /** Two requests never share an id, and neither purges the other's live scan: whoever judges it still sees the very
      record that makes it block. */
  ghost predicate PairOk(st: Stores, a: Request, b: Request) {
    && (HasId(a.pc) && HasId(b.pc) ==> a.pc.id != b.pc.id)
    && (a.pc.Judging? && Live(st, b) && a.pc.found == b.pc.id ==>
          a.pc.rec == RecordOf(b) && RecordOf(b) == RecordOf(a))
    && (a.pc.Purging? && Live(st, b) ==> a.pc.stale != b.pc.id)
  }

  ghost predicate Claimed(requests: map<nat, Request>, id: ScanId) {
    exists n :: n in requests && HasId(requests[n].pc) && requests[n].pc.id == id
  }

  ghost predicate InStores(st: Stores, id: ScanId) {
    || id in st.published || id in st.ledger || id in st.records
    || exists k :: k in st.reservations && st.reservations[k] == id
  }

  /** Nothing in the stores is an orphan: it was there before, or some request answers for it. */
  ghost predicate NoOrphans(base: set<ScanId>, w: World) {
    forall id :: InStores(w.st, id) && id !in base ==> Claimed(w.requests, id)
  }

  ghost predicate AllOk(base: set<ScanId>, st: Stores, requests: map<nat, Request>) {
    && (forall n :: n in requests ==> RequestOk(base, st, requests[n]))
    && (forall m, n :: m in requests && n in requests && m != n ==> PairOk(st, requests[m], requests[n]))
  }

  ghost predicate Inv(base: set<ScanId>, w: World) {
    StoresOk(w.st) && base <= w.st.issued.Keys && NoOrphans(base, w) && AllOk(base, w.st, w.requests)
  }

  /* ---- Stores that agree about a scan ---- */

  predicate IssuedGrows(st: Stores, v: Stores) {
    v.plans == st.plans && forall id :: id in st.issued ==> id in v.issued && v.issued[id] == st.issued[id]
  }

  /** The stores hold the same about this scan. */
  ghost predicate Agree(st: Stores, v: Stores, id: ScanId) {
    && v.published[id] == st.published[id] && (id in v.queue <==> id in st.queue)
    && (id in v.running <==> id in st.running) && (id in v.told <==> id in st.told)
    && (id in v.ledger <==> id in st.ledger) && (id in v.gone <==> id in st.gone)
    && (id in v.rows <==> id in st.rows) && (id in st.rows ==> v.rows[id] == st.rows[id])
    && (id in v.records <==> id in st.records) && (id in st.records ==> v.records[id] == st.records[id])
    && (forall state :: (id, state) in v.reports <==> (id, state) in st.reports)
    && (forall k :: k in v.reservations && v.reservations[k] == id <==>
                    k in st.reservations && st.reservations[k] == id)
  }

  /** A request whose scan did not change, or that has none, is as it was. */
  lemma OthersKeep(base: set<ScanId>, st: Stores, v: Stores, q: Request)
    requires RequestOk(base, st, q) && IssuedGrows(st, v) && (HasId(q.pc) ==> Agree(st, v, q.pc.id))
    ensures RequestOk(base, v, q) && (Live(v, q) <==> Live(st, q))
  {
  }

  /** What happened leaves the request with what it needs and does not revive its scan. */
  ghost predicate Undisturbed(base: set<ScanId>, st: Stores, v: Stores, q: Request) {
    RequestOk(base, v, q) && (Live(v, q) ==> Live(st, q))
  }

  /** The stores changed for one scan only, and neither its rows nor its deletion. */
  ghost predicate OnlyTouches(st: Stores, v: Stores, id: ScanId) {
    && IssuedGrows(st, v) && StoresOk(v) && v.rows == st.rows && v.gone == st.gone
    && forall x :: x != id ==> Agree(st, v, x)
  }

  lemma AgreeInStores(st: Stores, v: Stores, id: ScanId)
    requires Agree(st, v, id)
    ensures InStores(v, id) <==> InStores(st, id)
  {
    assert id in v.published <==> id in st.published;
  }

  /* ---- The steps of a request ---- */

  lemma PutAgrees(st: Stores, r: Request, id: ScanId, x: ScanId)
    requires x != id && Open(st, r)
    ensures Agree(st, Put(st, r, id), x)
  {
  }

  lemma PutIsOk(st: Stores, r: Request, id: ScanId)
    requires StoresOk(st) && id in st.issued
    ensures StoresOk(Put(st, r, id))
  {
  }

  lemma IssueIsOk(st: Stores, r: Request, id: ScanId)
    requires StoresOk(st) && id !in st.issued
    ensures StoresOk(Issue(st, r, id)) && IssuedGrows(st, Issue(st, r, id))
  {
  }

  lemma EntriesTouch(st: Stores, r: Request, id: ScanId)
    requires StoresOk(st) && id !in st.issued
    ensures OnlyTouches(st, WithEntries(st, r, id), id)
  {
    var v := Issue(st, r, id);
    IssueIsOk(st, r, id);
    if Open(st, r) {
      PutIsOk(v, r, id);
      forall x | x != id ensures Agree(st, Put(v, r, id), x) {
        PutAgrees(st, r, id, x);
      }
    }
  }

  lemma LedgerTouches(st: Stores, ledger: set<ScanId>, id: ScanId)
    requires StoresOk(st) && id in st.issued && (ledger == st.ledger + {id} || ledger == st.ledger - {id})
    ensures OnlyTouches(st, st.(ledger := ledger), id)
  {
  }

  lemma NothingTouches(st: Stores, id: ScanId)
    requires StoresOk(st)
    ensures OnlyTouches(st, st, id)
  {
  }

  lemma MessageTouches(st: Stores, id: ScanId, ok: bool)
    requires StoresOk(st) && id in st.issued
    ensures OnlyTouches(st, WithMessage(st, id, ok), id)
  {
  }

  lemma ForgetTouches(st: Stores, id: ScanId, took: bool)
    requires StoresOk(st) && id in st.issued
    ensures OnlyTouches(st, WithoutEntries(st, id, took), id)
  {
  }

  predicate Saga(s: Step) {
    s.Charge? || s.Publish? || s.Release? || s.Forget?
  }

  lemma SagaTouches(base: set<ScanId>, st: Stores, r: Request, s: Step)
    requires StoresOk(st) && Ready(st, r.pc, s) && Saga(s) && RequestOk(base, st, r)
    ensures OnlyTouches(st, StoresAfter(st, r, s), r.pc.id)
  {
    NothingTouches(st, r.pc.id);
    match s
    case Charge(_, _) => LedgerTouches(st, st.ledger + {r.pc.id}, r.pc.id);
    case Publish(_, ok) => MessageTouches(st, r.pc.id, ok);
    case Release(_, _) => LedgerTouches(st, st.ledger - {r.pc.id}, r.pc.id);
    case Forget(_, took) => ForgetTouches(st, r.pc.id, took);
  }

  /** Where the request stands after the step. */
  function After(st: Stores, r: Request, s: Step): Request
    requires Ready(st, r.pc, s)
  {
    r.(pc := PcAfter(st, r, s))
  }

  lemma HoldIsOk(base: set<ScanId>, st: Stores, r: Request, s: Step)
    requires s.Hold? && Ready(st, r.pc, s) && StoresOk(st) && base <= st.issued.Keys
    ensures RequestOk(base, StoresAfter(st, r, s), After(st, r, s))
  {
    var v := StoresAfter(st, r, s);
    if Open(st, r) {
      assert OnlyHere(v, r, s.id) && Owns(v, r, s.id) && Offstage(v, s.id) && s.id !in v.told;
    }
  }

  lemma ChargeIsOk(base: set<ScanId>, st: Stores, r: Request, s: Step)
    requires s.Charge? && Ready(st, r.pc, s) && RequestOk(base, st, r)
    ensures RequestOk(base, StoresAfter(st, r, s), After(st, r, s))
  {
  }

  lemma PublishIsOk(base: set<ScanId>, st: Stores, r: Request, s: Step)
    requires s.Publish? && Ready(st, r.pc, s) && RequestOk(base, st, r)
    ensures RequestOk(base, StoresAfter(st, r, s), After(st, r, s))
  {
  }

  lemma ReleaseIsOk(base: set<ScanId>, st: Stores, r: Request, s: Step)
    requires s.Release? && Ready(st, r.pc, s) && RequestOk(base, st, r)
    ensures RequestOk(base, StoresAfter(st, r, s), After(st, r, s))
  {
  }

  lemma ForgetIsOk(base: set<ScanId>, st: Stores, r: Request, s: Step)
    requires s.Forget? && Ready(st, r.pc, s) && RequestOk(base, st, r)
    ensures RequestOk(base, StoresAfter(st, r, s), After(st, r, s))
  {
  }

  lemma SagaIsOk(base: set<ScanId>, st: Stores, r: Request, s: Step)
    requires Saga(s) && Ready(st, r.pc, s) && RequestOk(base, st, r)
    ensures RequestOk(base, StoresAfter(st, r, s), After(st, r, s))
  {
    match s
    case Charge(_, _) => ChargeIsOk(base, st, r, s);
    case Publish(_, _) => PublishIsOk(base, st, r, s);
    case Release(_, _) => ReleaseIsOk(base, st, r, s);
    case Forget(_, _) => ForgetIsOk(base, st, r, s);
  }

  /* ---- Every step keeps the invariant ---- */

  ghost predicate PairsOk(st: Stores, a: Request, b: Request) {
    PairOk(st, a, b) && PairOk(st, b, a)
  }

  lemma LookPair(base: set<ScanId>, st: Stores, r: Request, q: Request)
    requires RequestOk(base, st, q) && r.pc == Found(st, r)
    ensures PairsOk(st, r, q)
  {
  }

  /** A judged reservation that does not block is nobody's live scan. */
  lemma StaleIsDead(base: set<ScanId>, st: Stores, a: Request, b: Request)
    requires a.pc.Judging? && PairOk(st, a, b) && RequestOk(base, st, a) && RequestOk(base, st, b)
    requires Live(st, b) && a.pc.found == b.pc.id
    ensures Blocks(st, a, a.pc.found, a.pc.rec)
  {
  }

  predicate Check(s: Step) {
    s.Look? || s.Judge? || s.List? || s.Refuse?
  }

  lemma CheckPair(base: set<ScanId>, st: Stores, r: Request, s: Step, q: Request)
    requires Check(s) && Ready(st, r.pc, s) && RequestOk(base, st, r) && RequestOk(base, st, q) && PairOk(st, r, q)
    ensures PairsOk(st, After(st, r, s), q)
  {
    if s.Look? {
      LookPair(base, st, After(st, r, s), q);
    } else if s.Judge? && Live(st, q) && r.pc.found == q.pc.id {
      StaleIsDead(base, st, r, q);
    }
  }

  lemma CheckIsOk(base: set<ScanId>, st: Stores, r: Request, s: Step)
    requires Check(s) && Ready(st, r.pc, s) && RequestOk(base, st, r) && StoresOk(st)
    ensures StoresAfter(st, r, s) == st && RequestOk(base, st, After(st, r, s)) && !HasId(After(st, r, s).pc)
  {
  }

  /** The purge removes the reservation it judged and no other, hence never a live scan's. */
  lemma PurgeSpares(base: set<ScanId>, st: Stores, r: Request, took: bool, q: Request)
    requires r.pc.Purging? && RequestOk(base, st, q) && PairOk(st, r, q)
    ensures RequestOk(base, WithoutStale(st, r, took), q)
  {
  }

  /** From the reservation on, a request works on its own scan only. */
  lemma OwnScanPair(base: set<ScanId>, st: Stores, v: Stores, r: Request, next: Request, id: ScanId, q: Request)
    requires OnlyTouches(st, v, id) && RequestOk(base, st, q) && PairsOk(st, r, q)
    requires RecordOf(r) == RecordOf(next) && (HasId(next.pc) ==> next.pc.id == id)
    requires !next.pc.Judging? && !next.pc.Purging?
    requires if HasId(r.pc) then r.pc.id == id && (Live(v, next) ==> Live(st, r)) else id !in st.issued
    ensures Undisturbed(base, st, v, q) && PairsOk(v, next, q)
  {
    OthersKeep(base, st, v, q);
  }

  /** The request takes a step, and the other one still has what it needs. */
  ghost predicate PairMoves(base: set<ScanId>, st: Stores, v: Stores, next: Request, q: Request) {
    Undisturbed(base, st, v, q) && PairsOk(v, next, q)
  }

  lemma HoldMoves(base: set<ScanId>, st: Stores, r: Request, s: Step, q: Request)
    requires StoresOk(st) && s.Hold? && Ready(st, r.pc, s) && RequestOk(base, st, q) && PairsOk(st, r, q)
    ensures PairMoves(base, st, WithEntries(st, r, s.id), After(st, r, s), q)
  {
    EntriesTouch(st, r, s.id);
    OwnScanPair(base, st, WithEntries(st, r, s.id), r, After(st, r, s), s.id, q);
  }

  /** In the saga a live request was live before. */
  lemma SagaStays(base: set<ScanId>, st: Stores, v: Stores, r: Request, s: Step)
    requires Saga(s) && Ready(st, r.pc, s) && v.rows == st.rows && v.gone == st.gone
    ensures var next := After(st, r, s);
            && HasId(next.pc) && next.pc.id == r.pc.id && (Live(v, next) ==> Live(st, r))
            && !next.pc.Judging? && !next.pc.Purging?
  {
  }

  lemma SagaMoves(base: set<ScanId>, st: Stores, r: Request, s: Step, q: Request)
    requires StoresOk(st) && Saga(s) && Ready(st, r.pc, s)
    requires RequestOk(base, st, r) && RequestOk(base, st, q) && PairsOk(st, r, q)
    ensures PairMoves(base, st, StoresAfter(st, r, s), After(st, r, s), q)
  {
    var v := StoresAfter(st, r, s);
    SagaTouches(base, st, r, s);
    SagaStays(base, st, v, r, s);
    OwnScanPair(base, st, v, r, After(st, r, s), r.pc.id, q);
  }

  lemma PurgeMoves(base: set<ScanId>, st: Stores, r: Request, s: Step, q: Request)
    requires s.Purge? && Ready(st, r.pc, s) && RequestOk(base, st, q) && PairsOk(st, r, q)
    ensures PairMoves(base, st, WithoutStale(st, r, s.took), After(st, r, s), q)
  {
    PurgeSpares(base, st, r, s.took, q);
  }

  lemma NextPair(base: set<ScanId>, st: Stores, r: Request, s: Step, q: Request)
    requires StoresOk(st) && ByRequest(s) && Ready(st, r.pc, s)
    requires RequestOk(base, st, r) && RequestOk(base, st, q) && PairsOk(st, r, q)
    ensures PairMoves(base, st, StoresAfter(st, r, s), After(st, r, s), q)
  {
    if Check(s) {
      CheckIsOk(base, st, r, s);
      CheckPair(base, st, r, s, q);
    } else if s.Purge? {
      PurgeMoves(base, st, r, s, q);
    } else if s.Hold? {
      HoldMoves(base, st, r, s, q);
    } else {
      SagaMoves(base, st, r, s, q);
    }
  }

  lemma NextIsOk(base: set<ScanId>, st: Stores, r: Request, s: Step)
    requires StoresOk(st) && base <= st.issued.Keys && ByRequest(s) && Ready(st, r.pc, s) && RequestOk(base, st, r)
    ensures RequestOk(base, StoresAfter(st, r, s), After(st, r, s))
  {
    if Check(s) {
      CheckIsOk(base, st, r, s);
    } else if s.Hold? {
      HoldIsOk(base, st, r, s);
    } else if Saga(s) {
      SagaIsOk(base, st, r, s);
    }
  }

  /** Nothing about other scans is new in the stores. */
  ghost predicate NothingElseNew(st: Stores, v: Stores, id: ScanId) {
    forall x :: x != id && InStores(v, x) ==> InStores(st, x)
  }

  lemma TouchesNothingElse(st: Stores, v: Stores, id: ScanId)
    requires OnlyTouches(st, v, id)
    ensures NothingElseNew(st, v, id)
  {
    forall x | x != id ensures InStores(v, x) ==> InStores(st, x) {
      AgreeInStores(st, v, x);
    }
  }

  lemma PurgeStores(st: Stores, r: Request, took: bool)
    requires StoresOk(st) && r.pc.Purging?
    ensures var v := WithoutStale(st, r, took);
            StoresOk(v) && IssuedGrows(st, v) && forall x :: InStores(v, x) ==> InStores(st, x)
  {
  }

  /** What is new in the stores belongs to the request that took the step. */
  ghost predicate Accounted(st: Stores, v: Stores, r: Request, next: Request) {
    && StoresOk(v) && IssuedGrows(st, v)
    && (HasId(r.pc) ==> HasId(next.pc) && next.pc.id == r.pc.id)
    && forall x :: InStores(v, x) && !InStores(st, x) ==> HasId(next.pc) && next.pc.id == x
  }

  lemma HoldAccounted(st: Stores, r: Request, s: Step)
    requires StoresOk(st) && s.Hold? && Ready(st, r.pc, s)
    ensures Accounted(st, WithEntries(st, r, s.id), r, After(st, r, s))
  {
    EntriesTouch(st, r, s.id);
    TouchesNothingElse(st, WithEntries(st, r, s.id), s.id);
    if !Open(st, r) {
      assert forall x :: InStores(Issue(st, r, s.id), x) ==> InStores(st, x);
    }
  }

  lemma SagaAccounted(base: set<ScanId>, st: Stores, r: Request, s: Step)
    requires StoresOk(st) && Saga(s) && Ready(st, r.pc, s) && RequestOk(base, st, r)
    ensures Accounted(st, StoresAfter(st, r, s), r, After(st, r, s))
  {
    var v := StoresAfter(st, r, s);
    SagaTouches(base, st, r, s);
    SagaStays(base, st, v, r, s);
    TouchesNothingElse(st, v, r.pc.id);
  }

  lemma NextAccounted(base: set<ScanId>, st: Stores, r: Request, s: Step)
    requires StoresOk(st) && ByRequest(s) && Ready(st, r.pc, s) && RequestOk(base, st, r)
    ensures Accounted(st, StoresAfter(st, r, s), r, After(st, r, s))
  {
    if Check(s) {
      CheckIsOk(base, st, r, s);
    } else if s.Purge? {
      PurgeStores(st, r, s.took);
    } else if s.Hold? {
      HoldAccounted(st, r, s);
    } else {
      SagaAccounted(base, st, r, s);
    }
  }

  lemma ClaimsGrow(w: World, n: nat, next: Request, id: ScanId)
    requires n in w.requests && Claimed(w.requests, id)
    requires HasId(w.requests[n].pc) ==> HasId(next.pc) && next.pc.id == w.requests[n].pc.id
    ensures Claimed(w.requests[n := next], id)
  {
    var m :| m in w.requests && HasId(w.requests[m].pc) && w.requests[m].pc.id == id;
    var requests := w.requests[n := next];
    assert HasId(requests[m].pc) && requests[m].pc.id == id;
  }

  lemma RequestKeepsOrphans(base: set<ScanId>, w: World, n: nat, v: Stores, next: Request)
    requires NoOrphans(base, w) && n in w.requests && Accounted(w.st, v, w.requests[n], next)
    ensures NoOrphans(base, World(v, w.requests[n := next]))
  {
    var requests := w.requests[n := next];
    assert requests[n] == next;
    forall id | InStores(v, id) && id !in base ensures Claimed(requests, id) {
      if InStores(w.st, id) {
        ClaimsGrow(w, n, next, id);
      }
    }
  }

  lemma Assemble(base: set<ScanId>, st: Stores, v: Stores, requests: map<nat, Request>, n: nat, next: Request)
    requires AllOk(base, st, requests) && RequestOk(base, v, next)
    requires forall m :: m in requests && m != n ==> PairMoves(base, st, v, next, requests[m])
    ensures AllOk(base, v, requests[n := next])
  {
    var all := requests[n := next];
    forall m | m in all ensures RequestOk(base, v, all[m]) {
      assert m != n ==> PairMoves(base, st, v, next, requests[m]);
    }
    forall a, b | a in all && b in all && a != b ensures PairOk(v, all[a], all[b]) {
      assert a != n ==> PairMoves(base, st, v, next, requests[a]);
      assert b != n ==> PairMoves(base, st, v, next, requests[b]);
      assert a != n && b != n ==> PairOk(st, requests[a], requests[b]);
    }
  }

  lemma RequestKeepsAll(base: set<ScanId>, w: World, s: Step)
    requires StoresOk(w.st) && base <= w.st.issued.Keys && AllOk(base, w.st, w.requests)
    requires ByRequest(s) && Enabled(w, s)
    ensures AllOk(base, Next(w, s).st, Next(w, s).requests)
  {
    var r, v := w.requests[s.n], StoresAfter(w.st, w.requests[s.n], s);
    var next := After(w.st, r, s);
    NextIsOk(base, w.st, r, s);
    forall m | m in w.requests && m != s.n ensures PairMoves(base, w.st, v, next, w.requests[m]) {
      NextPair(base, w.st, r, s, w.requests[m]);
    }
    Assemble(base, w.st, v, w.requests, s.n, next);
  }

  lemma RequestStep(base: set<ScanId>, w: World, s: Step)
    requires Inv(base, w) && ByRequest(s) && Enabled(w, s)
    ensures Inv(base, Next(w, s))
  {
    var r := w.requests[s.n];
    assert RequestOk(base, w.st, r);
    NextAccounted(base, w.st, r, s);
    RequestKeepsOrphans(base, w, s.n, StoresAfter(w.st, r, s), After(w.st, r, s));
    RequestKeepsAll(base, w, s);
  }

  /* ---- and so does what happens elsewhere ---- */

  lemma ScannersLeave(base: set<ScanId>, st: Stores, s: Step, q: Request)
    requires Possible(st, s) && (s.Take? || s.Die? || s.Report?) && RequestOk(base, st, q)
    ensures Undisturbed(base, st, Elsewhere(st, s), q)
  {
  }

  lemma AbandonerLeaves(base: set<ScanId>, st: Stores, s: Step, q: Request)
    requires Possible(st, s) && (s.Abandon? || s.Restart?) && RequestOk(base, st, q)
    ensures Undisturbed(base, st, Elsewhere(st, s), q)
  {
  }

  lemma AppliesToOwn(base: set<ScanId>, st: Stores, state: ScanState, at: int, q: Request)
    requires HasId(q.pc) && Applicable(st, q.pc.id, state) && RequestOk(base, st, q)
    ensures Undisturbed(base, st, Applied(st, q.pc.id, state, at), q)
  {
  }

  lemma ApplyAgrees(st: Stores, scan: ScanId, state: ScanState, at: int, id: ScanId)
    requires scan in st.issued && id != scan
    ensures Agree(st, Applied(st, scan, state, at), id)
  {
  }

  lemma PersistenceLeaves(base: set<ScanId>, st: Stores, scan: ScanId, state: ScanState, at: int, q: Request)
    requires Applicable(st, scan, state) && RequestOk(base, st, q)
    ensures Undisturbed(base, st, Applied(st, scan, state, at), q)
  {
    if HasId(q.pc) && q.pc.id == scan {
      AppliesToOwn(base, st, state, at, q);
    } else {
      if HasId(q.pc) {
        ApplyAgrees(st, scan, state, at, q.pc.id);
      }
      OthersKeep(base, st, Applied(st, scan, state, at), q);
    }
  }

  lemma UserLeaves(base: set<ScanId>, st: Stores, scan: ScanId, q: Request)
    requires scan in st.published || scan in st.rows
    requires RequestOk(base, st, q)
    ensures Undisturbed(base, st, Hidden(st, scan), q)
  {
  }

  lemma DropLeaves(base: set<ScanId>, st: Stores, scan: ScanId, q: Request)
    requires Freed(st, scan) && RequestOk(base, st, q)
    ensures Undisturbed(base, st, st.(records := st.records - {scan}), q)
  {
  }

  lemma UnreserveLeaves(base: set<ScanId>, st: Stores, scan: ScanId, q: Request)
    requires Freed(st, scan) && RequestOk(base, st, q)
    ensures Undisturbed(base, st, st.(reservations := Unreserve(st.reservations, scan)), q)
  {
  }

  lemma ElsewhereLeaves(base: set<ScanId>, st: Stores, s: Step, q: Request)
    requires Possible(st, s) && RequestOk(base, st, q)
    ensures Undisturbed(base, st, Elsewhere(st, s), q)
  {
    match s
    case Apply(scan, state, at) => PersistenceLeaves(base, st, scan, state, at, q);
    case UserDeletes(scan) => UserLeaves(base, st, scan, q);
    case DropRecord(scan) => DropLeaves(base, st, scan, q);
    case DropReservation(scan) => UnreserveLeaves(base, st, scan, q);
    case Abandon(_, _) => AbandonerLeaves(base, st, s, q);
    case Restart => AbandonerLeaves(base, st, s, q);
    case _ => ScannersLeave(base, st, s, q);
  }

  lemma ElsewhereStoresOk(st: Stores, s: Step)
    requires StoresOk(st) && Possible(st, s)
    ensures StoresOk(Elsewhere(st, s)) && Elsewhere(st, s).issued == st.issued
  {
  }

  lemma ElsewhereOnlyTakes(st: Stores, s: Step, id: ScanId)
    requires Possible(st, s) && InStores(Elsewhere(st, s), id)
    ensures InStores(st, id)
  {
  }

  lemma ElsewhereStep(base: set<ScanId>, w: World, s: Step)
    requires Inv(base, w) && Possible(w.st, s)
    ensures Inv(base, World(Elsewhere(w.st, s), w.requests))
  {
    var v := Elsewhere(w.st, s);
    ElsewhereStoresOk(w.st, s);
    forall m | m in w.requests ensures Undisturbed(base, w.st, v, w.requests[m]) {
      ElsewhereLeaves(base, w.st, s, w.requests[m]);
    }
    forall a, b | a in w.requests && b in w.requests && a != b ensures PairOk(v, w.requests[a], w.requests[b]) {
      assert PairOk(w.st, w.requests[a], w.requests[b]);
    }
    forall id | InStores(v, id) && id !in base ensures Claimed(w.requests, id) {
      ElsewhereOnlyTakes(w.st, s, id);
    }
  }

  lemma ArriveStep(base: set<ScanId>, w: World, n: nat, r: Request)
    requires Inv(base, w) && n !in w.requests && r.pc.Looking?
    ensures Inv(base, World(w.st, w.requests[n := r]))
  {
    forall m | m in w.requests && m != n ensures PairMoves(base, w.st, w.st, r, w.requests[m]) {
      assert RequestOk(base, w.st, w.requests[m]);
    }
    Assemble(base, w.st, w.st, w.requests, n, r);
    forall id | Claimed(w.requests, id) ensures Claimed(w.requests[n := r], id) {
      var m :| m in w.requests && HasId(w.requests[m].pc) && w.requests[m].pc.id == id;
      assert w.requests[n := r][m] == w.requests[m];
    }
  }

  lemma InvStep(base: set<ScanId>, w: World, s: Step)
    requires Inv(base, w) && Enabled(w, s)
    ensures Inv(base, Next(w, s))
  {
    if s.Arrive? {
      ArriveStep(base, w, s.n, Request(s.user, s.family, s.target, Looking));
    } else if ByRequest(s) {
      RequestStep(base, w, s);
    } else {
      ElsewhereStep(base, w, s);
    }
  }

  lemma {:induction false} InvRun(base: set<ScanId>, w: World, steps: seq<Step>)
    requires Inv(base, w) && Run(w, steps)
    ensures Inv(base, Final(w, steps))
    decreases |steps|
  {
    if steps != [] {
      InvStep(base, w, steps[0]);
      InvRun(base, Next(w, steps[0]), steps[1..]);
    }
  }

  lemma StartHolds(w: World, steps: seq<Step>)
    requires Start(w) && Run(w, steps)
    ensures Inv(w.st.issued.Keys, Final(w, steps))
  {
    InvRun(w.st.issued.Keys, w, steps);
  }

  /* ---- The theorems ---- */

  /** However requests, scanners, abandoner, persistence and users interleave: an accepted scan has exactly one message,
      its credit unless it failed, and its pending entries until it is deleted or over. A rolled-back one has no
      message; it has a credit exactly when one was taken and neither released nor ended by the abandoner, and pending
      entries only when they were not taken back. */
  lemma SagaAtomicity(w: World, steps: seq<Step>, n: nat)
    requires Start(w) && Run(w, steps) && n in Final(w, steps).requests
    ensures var v := Final(w, steps).st; var r := Final(w, steps).requests[n];
            match r.pc
            case Accepted(id) =>
              && id !in w.st.issued && v.published[id] == 1 && (id in v.ledger <==> v.plans && !Failed(v, id))
              && (!Freed(v, id) ==> Owns(v, r, id))
            case RolledBack(id, lostCredit, lostRecord) =>
              && id !in w.st.issued && v.published[id] == 0 && (id in v.ledger <==> lostCredit && !Failed(v, id))
              && (id in v.rows ==> Failed(v, id))
              && (lostRecord && !Freed(v, id) ==> Owns(v, r, id))
              && (!lostRecord ==> id !in v.records && forall k :: k in v.reservations ==> v.reservations[k] != id)
            case _ => true
  {
    StartHolds(w, steps);
    assert RequestOk(w.st.issued.Keys, Final(w, steps).st, Final(w, steps).requests[n]);
  }

  /** The moment of acceptance: there is exactly one message, and the credit and the pending entries are in place unless
      the abandoner failed the scan while its request stalled. */
  lemma AcceptedWithEverything(w: World, steps: seq<Step>, n: nat, ok: bool)
    requires Start(w) && Run(w, steps) && Enabled(Final(w, steps), Publish(n, ok))
    ensures var id := Final(w, steps).requests[n].pc.id;
            var v, r := Next(Final(w, steps), Publish(n, ok)).st, Next(Final(w, steps), Publish(n, ok)).requests[n];
            && (r.pc.Accepted? <==> ok) && v.published[id] == (if ok then 1 else 0) && (id in v.queue <==> ok)
            && (id in v.ledger <==> v.plans && !Failed(v, id)) && (!Failed(v, id) ==> Owns(v, r, id))
  {
    StartHolds(w, steps);
    assert RequestOk(w.st.issued.Keys, Final(w, steps).st, Final(w, steps).requests[n]);
  }

  predicate CleanlySettled(pc: Pc) {
    pc.Accepted? || pc.Refused? || (pc.RolledBack? && !pc.lostCredit && !pc.lostRecord)
  }

  ghost predicate AcceptedAs(w: World, id: ScanId) {
    exists n :: n in w.requests && w.requests[n].pc == Accepted(id)
  }

  lemma TracesAreClaimed(base: set<ScanId>, v: World, id: ScanId)
    requires Inv(base, v) && id !in base && InStores(v.st, id)
    requires forall n :: n in v.requests ==> CleanlySettled(v.requests[n].pc)
    ensures AcceptedAs(v, id)
  {
    assert Claimed(v.requests, id);
    var n :| n in v.requests && HasId(v.requests[n].pc) && v.requests[n].pc.id == id;
    assert RequestOk(base, v.st, v.requests[n]);
  }

  lemma AcceptedLeaveOneMessage(base: set<ScanId>, v: World, id: ScanId)
    requires Inv(base, v) && AcceptedAs(v, id)
    ensures v.st.published[id] == 1
  {
    var n :| n in v.requests && v.requests[n].pc == Accepted(id);
    assert RequestOk(base, v.st, v.requests[n]);
  }

  /** Once every request is answered and no compensation failed, whatever is new among the messages, in the ledger and
      in the pending store belongs to accepted scans, one message each. */
  lemma OnlyAcceptedScansLeaveTraces(w: World, steps: seq<Step>, id: ScanId)
    requires Start(w) && Run(w, steps) && id !in w.st.issued
    requires forall n :: n in Final(w, steps).requests ==> CleanlySettled(Final(w, steps).requests[n].pc)
    ensures InStores(Final(w, steps).st, id) <==> AcceptedAs(Final(w, steps), id)
    ensures Final(w, steps).st.published[id] == if AcceptedAs(Final(w, steps), id) then 1 else 0
  {
    StartHolds(w, steps);
    var v := Final(w, steps);
    if AcceptedAs(v, id) {
      AcceptedLeaveOneMessage(w.st.issued.Keys, v, id);
    }
    if InStores(v.st, id) {
      TracesAreClaimed(w.st.issued.Keys, v, id);
    }
  }

  predicate SameWallet(a: Request, b: Request) {
    a.family.WalletScan? && b.family.WalletScan? && Key(a) == Key(b)
  }

  lemma LiveIsAlone(base: set<ScanId>, w: World, m: nat, n: nat)
    requires Inv(base, w) && m in w.requests && n in w.requests && SameWallet(w.requests[m], w.requests[n])
    requires Live(w.st, w.requests[m]) && Live(w.st, w.requests[n])
    ensures m == n
  {
    assert RequestOk(base, w.st, w.requests[m]) && RequestOk(base, w.st, w.requests[n]);
    assert m != n ==> PairOk(w.st, w.requests[m], w.requests[n]);
  }

  /** Being accepted, or accepted and not in a terminal state. */
  predicate Unfinished(st: Stores, r: Request) {
    HasId(r.pc) && !r.pc.RolledBack? && !Terminal(st, r.pc.id)
  }

  /** At any time one owner and wallet have at most one request that is unfinished, unless the user deleted one of the
      scans in question. */
  lemma ReservationExclusion(w: World, steps: seq<Step>, m: nat, n: nat)
    requires Start(w) && Run(w, steps) && m != n
    requires m in Final(w, steps).requests && n in Final(w, steps).requests
    requires SameWallet(Final(w, steps).requests[m], Final(w, steps).requests[n])
    requires Unfinished(Final(w, steps).st, Final(w, steps).requests[m])
    requires Unfinished(Final(w, steps).st, Final(w, steps).requests[n])
    ensures var v := Final(w, steps); v.requests[m].pc.id in v.st.gone || v.requests[n].pc.id in v.st.gone
  {
    StartHolds(w, steps);
    var v := Final(w, steps);
    if v.requests[m].pc.id !in v.st.gone && v.requests[n].pc.id !in v.st.gone {
      LiveIsAlone(w.st.issued.Keys, v, m, n);
    }
  }

  /** A purge takes away at most the reservation it was judged on, and that one belongs to no live scan, however long
      ago the judgement was. */
  lemma PurgeHitsOnlyTheStale(w: World, steps: seq<Step>, n: nat, took: bool, k: (Uuid, string))
    requires Start(w) && Run(w, steps) && Enabled(Final(w, steps), Purge(n, took))
    requires k in Final(w, steps).st.reservations
    requires k !in Next(Final(w, steps), Purge(n, took)).st.reservations
    ensures var v, requests := Final(w, steps).st, Final(w, steps).requests;
            && k == Key(requests[n]) && v.reservations[k] == requests[n].pc.stale
            && forall m :: m in requests && Live(v, requests[m]) ==> requests[m].pc.id != v.reservations[k]
  {
    StartHolds(w, steps);
    var v := Final(w, steps);
    forall m | m in v.requests && Live(v.st, v.requests[m]) ensures v.requests[m].pc.id != v.st.reservations[k] {
      assert m != n ==> PairOk(v.st, v.requests[n], v.requests[m]);
    }
  }

  lemma {:induction false} RunConcat(w: World, first: seq<Step>, last: seq<Step>)
    requires Run(w, first) && Run(Final(w, first), last)
    ensures Run(w, first + last) && Final(w, first + last) == Final(Final(w, first), last)
    decreases |first|
  {
    if first == [] {
      assert first + last == last;
    } else {
      assert (first + last)[1..] == first[1..] + last;
      RunConcat(Next(w, first[0]), first[1..], last);
    }
  }

  /** The second half of the check, as a step: with a result repository the latest row of the wallet refuses the request
      exactly if it is unfinished; without one the request passes. */
  lemma LatestRowRefuses(w: World, n: nat, id: ScanId)
    requires Enabled(w, List(n)) && id in w.st.rows
    requires var r, rows := w.requests[n], w.st.rows;
             && OfWallet(rows[id], r.user, r.target)
             && forall x :: x in rows && x != id && OfWallet(rows[x], r.user, r.target) ==>
                              Later(rows[id], id, rows[x], x)
    ensures Next(w, List(n)).requests[n].pc ==
            if w.st.results && !IsTerminal(w.st.rows[id].state) then Refused else Clear
  {
    LatestRowDecides(w.st.rows, w.requests[n].user, w.requests[n].target, id);
  }

  /** One more step at the end of a run. */
  lemma Append(w: World, t: seq<Step>, s: Step)
    requires Run(w, t) && Enabled(Final(w, t), s)
    ensures Run(w, t + [s]) && Final(w, t + [s]) == Next(Final(w, t), s)
  {
    var u := Final(w, t);
    assert [s][1..] == [];
    assert Run(u, [s]) && Final(u, [s]) == Next(u, s) by {
      assert Run(Next(u, s), []) && Final(Next(u, s), []) == Next(u, s);
    }
    RunConcat(w, t, [s]);
  }
}
