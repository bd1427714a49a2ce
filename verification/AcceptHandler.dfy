/** `PostDiscoveryScanV1` (`internal/handler/discovery.go`) as the code that one request runs. Every call it makes to
    another service is one step of `AcceptProtocol`: the history of the handler is a run of that machine, so the
    theorems about interleaved requests are about this code. */
module AcceptHandler {
  import opened Domain
  import opened AcceptProtocol
  import Address

  /** A reservation call works, fails, or stores its entries and reports an error; a quota call says yes, no, fails, or
      takes the credit and reports an error. */
  datatype Reserving = Stored | NotStored | Unheard
  datatype Quota = Yes | No | Error | Unheard

  /** What the other services do. For calls whose answer the handler ignores only the effect counts. */
  datatype Calls = Calls(
    scannerThere: bool, urlOk: bool, lookup: bool, find: bool, purge: bool, list: bool, policies: Result<nat>,
    reserve: Reserving, quota: Quota, publish: bool, release: bool, forget: bool)

  datatype Response = Accept(scan: ScanId) | BadRequest | Forbidden | Conflict | InternalError | Unavailable

  function ChargingOf(quota: Quota): Charging {
    match quota
    case Yes => Granted
    case Unheard => Unanswered
    case _ => Denied
  }

  /** Nothing, or only something stale, holds the wallet of the request. */
  predicate Free(st: Stores, r: Request) {
    Key(r) in st.reservations ==> var id := st.reservations[Key(r)]; !Blocks(st, r, id, Lookup(st, r, id))
  }

  /** The row of the reserved scan, if there is a reason to look for it, can be read. */
  predicate CheckAnswers(st: Stores, r: Request, calls: Calls) {
    Key(r) in st.reservations && st.reservations[Key(r)] != NIL_SCAN && st.results ==> calls.find
  }

  /** The first half of the in-flight check lets the request through; so does the second. */
  predicate ReservationPasses(st: Stores, r: Request, calls: Calls) {
    calls.lookup && CheckAnswers(st, r, calls) && Free(st, r)
  }

  predicate RowsPass(st: Stores, r: Request, calls: Calls) {
    st.results ==> calls.list && !NewestInFlight(st.rows, r.user, r.target)
  }

  /** The reservation of the wallet is gone once the check is through. */
  predicate Vacated(st: Stores, r: Request, calls: Calls) {
    Key(r) !in st.reservations || calls.purge
  }

  function WithoutKey(st: Stores, r: Request): Stores {
    st.(reservations := st.reservations - {Key(r)})
  }

  /** The stores after the first half: a stale reservation is purged. */
  function Purged(st: Stores, r: Request, calls: Calls): Stores {
    if ReservationPasses(st, r, calls) && calls.purge then WithoutKey(st, r) else st
  }

  /** The refusals of the two halves, and of the whole preparation. */
  function ReservationRefusal(st: Stores, r: Request, calls: Calls): Option<Response> {
    if !calls.lookup then Some(Unavailable)
    else if !CheckAnswers(st, r, calls) then Some(InternalError)
    else if !Free(st, r) then Some(Conflict)
    else None
  }

  function RowsRefusal(st: Stores, r: Request, calls: Calls): Option<Response> {
    if st.results && !calls.list then Some(InternalError)
    else if st.results && NewestInFlight(st.rows, r.user, r.target) then Some(Conflict)
    else None
  }

  function CheckRefusal(st: Stores, r: Request, calls: Calls): Option<Response> {
    var refusal := ReservationRefusal(st, r, calls);
    if refusal.Some? then refusal else RowsRefusal(st, r, calls)
  }

  function PrepareRefusal(st: Stores, r: Request, calls: Calls): Option<Response> {
    if !Address.IsValid(r.target) then Some(BadRequest)
    else if CheckRefusal(st, r, calls).Some? then CheckRefusal(st, r, calls)
    else if calls.policies.Err? then Some(Unavailable)
    else if calls.policies.value > 0 then Some(Conflict)
    else None
  }

  /** The answer from the reservation on. */
  function FinalAnswer(st: Stores, open: bool, id: ScanId, calls: Calls): Response {
    if !calls.reserve.Stored? then Unavailable
    else if !open then Conflict
    else LateAnswer(st, id, calls)
  }

  function LateAnswer(st: Stores, id: ScanId, calls: Calls): Response {
    if st.plans && calls.quota.No? then Forbidden
    else if st.plans && !calls.quota.Yes? then InternalError
    else if !calls.publish then InternalError
    else Accept(id)
  }

  function WalletRequest(user: Uuid, address: string): Request {
    Request(user, WalletScan, Address.Normalize(address), Looking)
  }

  /** A wallet request gets as far as the reservation. */
  predicate WalletAdmitted(st: Stores, r: Request, calls: Calls) {
    Address.IsValid(r.target) && ReservationPasses(st, r, calls) && RowsPass(st, r, calls) && calls.policies == Ok(0)
  }

  /** Everything from the reservation on goes through. */
  predicate Completes(st: Stores, calls: Calls) {
    calls.reserve.Stored? && (st.plans ==> calls.quota.Yes?) && calls.publish
  }

  function WalletAnswer(st: Stores, q: Request, id: ScanId, calls: Calls): Response {
    if PrepareRefusal(st, q, calls).Some? then PrepareRefusal(st, q, calls).value
    else FinalAnswer(st, Vacated(st, q, calls), id, calls)
  }

  lemma WalletAnswerAccepts(st: Stores, q: Request, id: ScanId, calls: Calls)
    ensures WalletAnswer(st, q, id, calls).Accept? <==>
            WalletAdmitted(st, q, calls) && Vacated(st, q, calls) && Completes(st, calls)
    ensures PrepareRefusal(st, q, calls).None? <==> WalletAdmitted(st, q, calls)
  {
  }

  /** The stores of an accepted scan. */
  function AcceptedStores(st: Stores, r: Request, id: ScanId): Stores {
    WithMessage(WithCredit(WithEntries(st, r, id), id, Granted), id, true)
  }

  /** What failed left no credit, and no pending entries. */
  predicate NoCreditLeft(calls: Calls) {
    calls.release && !calls.quota.Unheard?
  }

  predicate NoEntriesLeft(calls: Calls) {
    calls.forget && !calls.reserve.Unheard?
  }

  /** A request that was not accepted: no message, and no credit or pending entry that a call could not take back. */
  predicate Undone(st: Stores, v: Stores, calls: Calls) {
    && v == st.(issued := v.issued, ledger := v.ledger, records := v.records, reservations := v.reservations)
    && (NoCreditLeft(calls) ==> v.ledger == st.ledger)
    && (NoEntriesLeft(calls) ==> v.records == st.records && v.reservations == st.reservations)
  }

  /** The first listed row decides whether the newest is in flight. */
  lemma FirstDecides(rows: map<ScanId, Row>, user: Uuid, target: string, first: Option<ScanId>)
    requires first.None? ==> forall x :: x in rows ==> !OfWallet(rows[x], user, target)
    requires first.Some? ==> first.value in rows && OfWallet(rows[first.value], user, target)
    requires first.Some? ==>
               forall x :: x in rows && x != first.value && OfWallet(rows[x], user, target) ==>
                             Later(rows[first.value], first.value, rows[x], x)
    ensures NewestInFlight(rows, user, target) <==> first.Some? && !IsTerminal(rows[first.value].state)
  {
    if first.Some? {
      LatestRowDecides(rows, user, target, first.value);
    }
  }

  /** An id that was not handed out yet is in no store. */
  lemma Fresh(w: World, t: seq<Step>, id: ScanId)
    requires Start(w) && Run(w, t) && id !in Final(w, t).st.issued
    ensures var v := Final(w, t).st;
            && id !in v.records && id !in v.ledger
            && forall k :: k in v.reservations ==> v.reservations[k] != id
  {
    StartHolds(w, t);
  }

  lemma EntriesAndBack(st: Stores, r: Request, id: ScanId)
    requires id !in st.records && Open(st, r) && forall k :: k in st.reservations ==> st.reservations[k] != id
    ensures WithoutEntries(WithEntries(st, r, id), id, true) == Issue(st, r, id)
  {
    assert st.records[id := RecordOf(r)] - {id} == st.records;
    assert Unreserve(st.reservations[Key(r) := id], id) == st.reservations || !r.family.WalletScan?;
    assert Unreserve(st.reservations, id) == st.reservations;
  }

  /** A reservation that was never answered, or one that was taken back, leaves what `Undone` allows. */
  lemma EntriesUndone(st: Stores, v: Stores, r: Request, id: ScanId, calls: Calls)
    requires id !in st.records && Open(st, r) && forall k :: k in st.reservations ==> st.reservations[k] != id
    requires LedgerUndone(WithEntries(st, r, id), v, id, calls)
    ensures Undone(st, v, calls)
  {
    EntriesAndBack(st, r, id);
  }

  lemma UnheardUndone(st: Stores, r: Request, id: ScanId, calls: Calls)
    requires calls.reserve.Unheard? || !Open(st, r)
    ensures Undone(st, WithEntries(st, r, id), calls)
  {
  }

  /** Once the check is through, the wallet is open exactly if its reservation is gone. */
  lemma PurgedIsOpen(st: Stores, r: Request, calls: Calls)
    requires ReservationPasses(st, r, calls) && r.family.WalletScan?
    ensures Open(Purged(st, r, calls), r) <==> Vacated(st, r, calls)
    ensures Vacated(st, r, calls) ==> Purged(st, r, calls) == WithoutKey(st, r)
  {
    assert Key(r) !in st.reservations ==> st.reservations - {Key(r)} == st.reservations;
  }

  /** What the failures after the reservation leave: a changed ledger only if a credit could not be returned. */
  ghost predicate LedgerUndone(st: Stores, v: Stores, id: ScanId, calls: Calls) {
    v == WithoutEntries(st.(ledger := v.ledger), id, calls.forget) && (NoCreditLeft(calls) ==> v.ledger == st.ledger)
  }

  lemma RefusalUndone(st: Stores, id: ScanId, calls: Calls)
    requires st.plans && !calls.quota.Yes?
    ensures LedgerUndone(st, WithoutEntries(WithCredit(st, id, ChargingOf(calls.quota)), id, calls.forget), id, calls)
  {
  }

  lemma PublishUndone(st: Stores, id: ScanId, calls: Calls)
    requires id !in st.ledger
    ensures var charged := WithCredit(st, id, Granted);
            LedgerUndone(st, WithoutEntries(WithoutCredit(charged, id, calls.release), id, calls.forget), id, calls)
  {
    assert st.ledger + {id} - {id} == st.ledger && st.ledger - {id} == st.ledger;
  }

  /** A wallet request that was not accepted changed nothing but a stale reservation of its wallet. */
  predicate WalletUndone(st: Stores, v: Stores, q: Request, calls: Calls) {
    Undone(st, v, calls) || (Free(st, q) && Undone(WithoutKey(st, q), v, calls))
  }

  lemma PurgedUndone(st: Stores, v: Stores, q: Request, calls: Calls)
    requires v == Purged(st, q, calls) || v == st || Undone(Purged(st, q, calls), v, calls)
    ensures WalletUndone(st, v, q, calls)
  {
  }

  class DiscoveryHandler {
    var st: Stores
    ghost var requests: map<nat, Request>
    ghost var trace: seq<Step>
    ghost const origin: World

    ghost function State(): World
      reads this
    {
      World(st, requests)
    }

    /** What the handler did so far is a run of the machine. */
    ghost predicate Valid()
      reads this
    {
      Start(origin) && Run(origin, trace) && Final(origin, trace) == State()
    }

    /** Request `n`, which asks for `q`, has come this far. */
    ghost predicate At(n: nat, q: Request, pc: Pc)
      reads this
    {
      n in requests && requests[n] == q.(pc := pc)
    }

    /** It goes on, and no other does. */
    ghost predicate Goes(before: map<nat, Request>, n: nat, q: Request, pc: Pc)
      reads this
    {
      requests == before[n := q.(pc := pc)]
    }

    constructor (start: World)
      requires Start(start)
      ensures Valid() && State() == start && origin == start
    {
      st, requests, trace, origin := start.st, map[], [], start;
    }

    /** The handler moved by one step of the machine. */
    ghost method Log(w: World, s: Step)
      requires Start(origin) && Run(origin, trace) && Final(origin, trace) == w
      requires Enabled(w, s) && State() == Next(w, s)
      modifies this`trace
      ensures Valid()
    {
      Append(origin, trace, s);
      trace := trace + [s];
    }

    ghost method Arrives(n: nat, q: Request)
      requires Valid() && n !in requests
      modifies this`requests, this`trace
      ensures Valid() && Goes(old(requests), n, q, Looking)
    {
      var w := State();
      requests := requests[n := q.(pc := Looking)];
      Log(w, Arrive(n, q.user, q.family, q.target));
    }

    /** Request `n` takes a step from `w`; the stores are what it left. */
    ghost method Steps(w: World, q: Request, pc: Pc, s: Step)
      requires Start(origin) && Run(origin, trace) && Final(origin, trace) == w && requests == w.requests
      requires ByRequest(s) && At(s.n, q, pc) && Ready(w.st, pc, s) && st == StoresAfter(w.st, q.(pc := pc), s)
      modifies this`requests, this`trace
      ensures Valid() && Goes(old(requests), s.n, q, PcAfter(w.st, q.(pc := pc), s))
    {
      requests := requests[s.n := After(w.st, q.(pc := pc), s)];
      Log(w, s);
    }

    /** `GetWalletByOwnerAddress`. */
    method GetWalletByOwnerAddress(ghost n: nat, q: Request) returns (found: Option<(ScanId, Record)>)
      requires Valid() && At(n, q, Looking) && q.family.WalletScan?
      modifies this`requests, this`trace
      ensures Valid()
      ensures Goes(old(requests), n, q, if found.None? then Listing else Judging(found.value.0, found.value.1))
      ensures found.Some? <==> Key(q) in st.reservations
      ensures found.Some? ==> found.value.0 == st.reservations[Key(q)] && found.value.1 == Lookup(st, q, found.value.0)
    {
      found := None;
      if (q.user, q.target) in st.reservations {
        var id := st.reservations[(q.user, q.target)];
        var none := Record(q.user, WalletScan, q.target, false, false);
        found := Some((id, if id in st.records then st.records[id] else none));
      }
      Steps(State(), q, Looking, Look(n));
    }

    /** `pendingWalletReservationState`: block, or stale, or an error. */
    method PendingWalletReservationState(ghost n: nat, q: Request, id: ScanId, rec: Record, find: bool)
      returns (block: Result<bool>)
      requires Valid() && At(n, q, Judging(id, rec))
      modifies this`requests, this`trace
      ensures Valid() && Goes(old(requests), n, q, if block == Ok(false) then Purging(id) else Refused)
      ensures block.Err? <==> id != NIL_SCAN && st.results && !find
      ensures block.Ok? ==> block.value == Blocks(st, q, id, rec)
    {
      if id == NIL_SCAN {
        block := Ok(false);
      } else if st.results && !find {
        Steps(State(), q, Judging(id, rec), Refuse(n));
        return Err;
      } else if st.results && id in st.rows && Visible(st.rows[id], q.user) {
        block := Ok(!IsTerminal(st.rows[id].state));
      } else if !rec.dated {
        block := Ok(false);
      } else {
        var same := Address.Lower(rec.target) == Address.Lower(q.target);
        block := Ok(rec.user == q.user && rec.family.WalletScan? && same);
      }
      Steps(State(), q, Judging(id, rec), Judge(n));
    }

    /** `DeleteWalletReservation` of the pending store. */
    method DeleteWalletReservation(ghost n: nat, q: Request, id: ScanId, took: bool)
      requires Valid() && At(n, q, Purging(id))
      modifies this`st, this`requests, this`trace
      ensures Valid() && Goes(old(requests), n, q, Listing)
      ensures st == WithoutStale(old(st), q.(pc := Purging(id)), took)
    {
      ghost var w := State();
      var key := (q.user, q.target);
      if took && key in st.reservations && st.reservations[key] == id {
        st := st.(reservations := st.reservations - {key});
      }
      Steps(w, q, Purging(id), Purge(n, took));
    }

    /** A found reservation blocks, or is purged; the error of a failed purge is ignored. */
    method PurgeIfStale(ghost n: nat, q: Request, id: ScanId, rec: Record, calls: Calls)
      returns (refusal: Option<Response>)
      requires Valid() && At(n, q, Judging(id, rec)) && Key(q) in st.reservations && st.reservations[Key(q)] == id
      modifies this`st, this`requests, this`trace
      ensures Valid() && Goes(old(requests), n, q, if refusal.None? then Listing else Refused)
      ensures refusal == if id != NIL_SCAN && old(st).results && !calls.find then Some(InternalError)
                         else if Blocks(old(st), q, id, rec) then Some(Conflict) else None
      ensures st == if refusal.None? && calls.purge then WithoutKey(old(st), q) else old(st)
    {
      var block := PendingWalletReservationState(n, q, id, rec, calls.find);
      if block.Err? {
        return Some(InternalError);
      }
      if block.value {
        return Some(Conflict);
      }
      DeleteWalletReservation(n, q, id, calls.purge);
      return None;
    }

    /** The first half of the in-flight check: the reservation of the wallet. */
    method CheckReservation(ghost n: nat, q: Request, calls: Calls) returns (refusal: Option<Response>)
      requires Valid() && At(n, q, Looking) && q.family.WalletScan?
      modifies this`st, this`requests, this`trace
      ensures Valid() && Goes(old(requests), n, q, if refusal.None? then Listing else Refused)
      ensures refusal == ReservationRefusal(old(st), q, calls)
      ensures st == Purged(old(st), q, calls)
    {
      if !calls.lookup {
        Steps(State(), q, Looking, Refuse(n));
        return Some(Unavailable);
      }
      refusal := None;
      var found := GetWalletByOwnerAddress(n, q);
      if found.Some? {
        refusal := PurgeIfStale(n, q, found.value.0, found.value.1, calls);
      }
    }

    /** The first row of `ListOwnerWalletScansByAddress`: the rows of the wallet, latest first. */
    method FirstListed(user: Uuid, target: string) returns (first: Option<ScanId>)
      ensures first.None? <==> forall x :: x in st.rows ==> !OfWallet(st.rows[x], user, target)
      ensures first.Some? ==> first.value in st.rows && OfWallet(st.rows[first.value], user, target)
      ensures first.Some? ==>
                forall x :: x in st.rows && x != first.value && OfWallet(st.rows[x], user, target) ==>
                              Later(st.rows[first.value], first.value, st.rows[x], x)
    {
      first := None;
      var todo := st.rows.Keys;
      while todo != {}
        invariant todo <= st.rows.Keys
        invariant first.None? <==> forall x :: x in st.rows && x !in todo ==> !OfWallet(st.rows[x], user, target)
        invariant first.Some? ==>
                    first.value in st.rows && first.value !in todo && OfWallet(st.rows[first.value], user, target)
        invariant first.Some? ==>
                    forall x :: x in st.rows && x !in todo && x != first.value && OfWallet(st.rows[x], user, target) ==>
                                  Later(st.rows[first.value], first.value, st.rows[x], x)
        decreases todo
      {
        var x :| x in todo;
        todo := todo - {x};
        var row := st.rows[x];
        if !row.hidden && row.of.user == user && row.of.family == WalletScan
           && Address.Lower(row.of.target) == Address.Lower(target) {
          if first.None? {
            first := Some(x);
          } else {
            var best := st.rows[first.value];
            if row.at > best.at || (row.at == best.at && x > first.value) {
              first := Some(x);
            }
          }
        }
      }
    }

    /** The second half: the newest row of the wallet, if there is a result repository. */
    method CheckNewestRow(ghost n: nat, q: Request, calls: Calls) returns (refusal: Option<Response>)
      requires Valid() && At(n, q, Listing)
      modifies this`requests, this`trace
      ensures Valid() && Goes(old(requests), n, q, if refusal.None? then Clear else Refused)
      ensures refusal == RowsRefusal(st, q, calls)
    {
      if st.results && !calls.list {
        Steps(State(), q, Listing, Refuse(n));
        return Some(InternalError);
      }
      refusal := None;
      if st.results {
        var first := FirstListed(q.user, q.target);
        FirstDecides(st.rows, q.user, q.target, first);
        if first.Some? && !IsTerminal(st.rows[first.value].state) {
          refusal := Some(Conflict);
        }
      }
      Steps(State(), q, Listing, List(n));
    }

    /** `checkWalletScanInFlight`. */
    method CheckWalletScanInFlight(ghost n: nat, q: Request, calls: Calls) returns (refusal: Option<Response>)
      requires Valid() && At(n, q, Looking) && q.family.WalletScan?
      modifies this`st, this`requests, this`trace
      ensures Valid() && Goes(old(requests), n, q, if refusal.None? then Clear else Refused)
      ensures refusal == CheckRefusal(old(st), q, calls)
      ensures refusal.None? <==> ReservationPasses(old(st), q, calls) && RowsPass(old(st), q, calls)
      ensures st == Purged(old(st), q, calls)
    {
      refusal := CheckReservation(n, q, calls);
      if refusal.None? {
        refusal := CheckNewestRow(n, q, calls);
      }
    }

    /** `prepareWalletScanQueue`: address, in-flight check and policy context. */
    method PrepareWalletScanQueue(ghost n: nat, user: Uuid, address: string, calls: Calls)
      returns (refusal: Option<Response>, q: Request)
      requires Valid() && n !in requests
      modifies this`st, this`requests, this`trace
      ensures Valid() && q == WalletRequest(user, address)
      ensures refusal == PrepareRefusal(old(st), q, calls)
      ensures refusal.None? <==> WalletAdmitted(old(st), q, calls)
      ensures refusal.None? ==> Goes(old(requests), n, q, Clear)
      ensures st == if Address.IsValid(q.target) then Purged(old(st), q, calls) else old(st)
    {
      q := WalletRequest(user, address);
      if !Address.IsValid(q.target) {
        return Some(BadRequest), q;
      }
      Arrives(n, q);
      refusal := CheckWalletScanInFlight(n, q, calls);
      if refusal.None? && calls.policies != Ok(0) {
        Steps(State(), q, Clear, Refuse(n));
        refusal := Some(if calls.policies.Err? then Unavailable else Conflict);
      }
    }

    /** The new entries, if the address is free. */
    method PutEntries(q: Request, id: ScanId) returns (open: bool)
      modifies this`st
      ensures open == Open(old(st), q) && st == WithEntries(old(st), q, id)
    {
      var rec := Record(q.user, q.family, q.target, true, q.family.WalletScan?);
      open := q.family.TlsScan? || (q.user, q.target) !in st.reservations;
      st := st.(issued := st.issued[id := rec]);
      if open {
        st := st.(records := st.records[id := rec]);
        if q.family.WalletScan? {
          st := st.(reservations := st.reservations[(q.user, q.target) := id]);
        }
      }
    }

    /** `ReserveWallet` and `PutTLS`. */
    method Reserve(ghost n: nat, q: Request, id: ScanId, how: Reserving) returns (refusal: Option<Response>)
      requires Valid() && At(n, q, Clear) && id !in st.issued && id != NIL_SCAN
      modifies this`st, this`requests, this`trace
      ensures Valid() && (refusal.None? ==> Goes(old(requests), n, q, Holding(id)))
      ensures refusal == if !how.Stored? then Some(Unavailable) else if Open(old(st), q) then None else Some(Conflict)
      ensures st == if how.NotStored? then old(st) else WithEntries(old(st), q, id)
    {
      ghost var w := State();
      if how.NotStored? {
        Steps(w, q, Clear, Refuse(n));
        return Some(Unavailable);
      }
      var open := PutEntries(q, id);
      assert WithEntries(w.st, q.(pc := Clear), id) == st;
      Steps(w, q, Clear, Hold(n, id, how.Stored?));
      return if how.Unheard? then Some(Unavailable) else if open then None else Some(Conflict);
    }

    /** `reserveScanQuota`: nothing to do without a plan service. */
    method ReserveScanQuota(ghost n: nat, q: Request, id: ScanId, quota: Quota) returns (refusal: Option<Response>)
      requires Valid() && At(n, q, Holding(id))
      modifies this`st, this`requests, this`trace
      ensures Valid() && Goes(old(requests), n, q, AfterCharge(old(st), id, ChargingOf(quota)))
      ensures st == WithCredit(old(st), id, ChargingOf(quota))
      ensures refusal == if !old(st).plans || quota.Yes? then None
                         else Some(if quota.No? then Forbidden else InternalError)
    {
      ghost var w := State();
      refusal := None;
      if st.plans {
        if quota.Yes? || quota.Unheard? {
          st := st.(ledger := st.ledger + {id});
        }
        refusal := if quota.Yes? then None else if quota.No? then Some(Forbidden) else Some(InternalError);
      }
      Steps(w, q, Holding(id), Charge(n, ChargingOf(quota)));
    }

    method PublishScanRequested(ghost n: nat, q: Request, id: ScanId, ok: bool)
      requires Valid() && At(n, q, Charged(id))
      modifies this`st, this`requests, this`trace
      ensures Valid() && Goes(old(requests), n, q, if ok then Accepted(id) else Undoing(id, true, false))
      ensures st == WithMessage(old(st), id, ok)
    {
      ghost var w := State();
      if ok {
        st := st.(published := st.published + multiset{id}, queue := st.queue + {id});
      }
      Steps(w, q, Charged(id), Publish(n, ok));
    }

    method ReleaseUsage(ghost n: nat, q: Request, id: ScanId, took: bool)
      requires Valid() && At(n, q, Undoing(id, true, false))
      modifies this`st, this`requests, this`trace
      ensures Valid() && Goes(old(requests), n, q, Undoing(id, false, !took && id in old(st).ledger))
      ensures st == WithoutCredit(old(st), id, took)
    {
      ghost var w := State();
      if took {
        st := st.(ledger := st.ledger - {id});
      }
      Steps(w, q, Undoing(id, true, false), Release(n, took));
    }

    method DeletePending(ghost n: nat, q: Request, id: ScanId, took: bool, ghost lost: bool)
      requires Valid() && At(n, q, Undoing(id, false, lost))
      modifies this`st, this`requests, this`trace
      ensures Valid() && Goes(old(requests), n, q, RolledBack(id, lost, !took))
      ensures st == WithoutEntries(old(st), id, took)
    {
      ghost var w := State();
      if took {
        st := st.(records := st.records - {id}, reservations := Unreserve(st.reservations, id));
      }
      Steps(w, q, Undoing(id, false, lost), Forget(n, took));
    }

    /** `rollbackScanAccept`. */
    method RollbackScanAccept(ghost n: nat, q: Request, id: ScanId, releaseQuota: bool, calls: Calls, ghost lost: bool)
      requires Valid() && At(n, q, Undoing(id, releaseQuota, lost)) && (releaseQuota ==> !lost)
      modifies this`st, this`requests, this`trace
      ensures Valid()
      ensures st == WithoutEntries(WithoutCredit(old(st), id, releaseQuota && calls.release), id, calls.forget)
    {
      if releaseQuota {
        ReleaseUsage(n, q, id, calls.release);
        DeletePending(n, q, id, calls.forget, !calls.release && id in old(st).ledger);
      } else {
        DeletePending(n, q, id, calls.forget, lost);
      }
    }

    /** Reserve the quota, and take the pending entries back if that fails. */
    method ChargeOrUndo(ghost n: nat, q: Request, id: ScanId, calls: Calls) returns (refusal: Option<Response>)
      requires Valid() && At(n, q, Holding(id))
      modifies this`st, this`requests, this`trace
      ensures Valid() && (refusal.None? ==> Goes(old(requests), n, q, Charged(id)))
      ensures refusal == if !old(st).plans || calls.quota.Yes? then None
                         else Some(if calls.quota.No? then Forbidden else InternalError)
      ensures var charged := WithCredit(old(st), id, ChargingOf(calls.quota));
              st == if refusal.None? then charged else WithoutEntries(charged, id, calls.forget)
    {
      refusal := ReserveScanQuota(n, q, id, calls.quota);
      if refusal.Some? {
        RollbackScanAccept(n, q, id, false, calls, calls.quota.Unheard?);
      }
    }

    /** Publish, and undo everything if that fails. */
    method PublishOrUndo(ghost n: nat, q: Request, id: ScanId, calls: Calls)
      requires Valid() && At(n, q, Charged(id))
      modifies this`st, this`requests, this`trace
      ensures Valid() && (calls.publish ==> Goes(old(requests), n, q, Accepted(id)))
      ensures st == if calls.publish then WithMessage(old(st), id, true)
                    else WithoutEntries(WithoutCredit(old(st), id, calls.release), id, calls.forget)
    {
      PublishScanRequested(n, q, id, calls.publish);
      if !calls.publish {
        RollbackScanAccept(n, q, id, true, calls, false);
      }
    }

    /** With the pending entries in place: credit, message, and the rollback of what came before a failure. */
    method ChargeAndPublish(ghost n: nat, q: Request, id: ScanId, calls: Calls) returns (response: Response)
      requires Valid() && At(n, q, Holding(id)) && id !in st.ledger
      modifies this`st, this`requests, this`trace
      ensures Valid()
      ensures response == LateAnswer(old(st), id, calls)
      ensures response.Accept? ==> response.scan == id && Goes(old(requests), n, q, Accepted(id))
      ensures response.Accept? ==> st == WithMessage(WithCredit(old(st), id, Granted), id, true)
      ensures !response.Accept? ==> LedgerUndone(old(st), st, id, calls)
    {
      ghost var before := st;
      var refusal := ChargeOrUndo(n, q, id, calls);
      if refusal.Some? {
        RefusalUndone(before, id, calls);
        return refusal.value;
      }
      assert st == WithCredit(before, id, Granted);
      PublishOrUndo(n, q, id, calls);
      PublishUndone(before, id, calls);
      return if calls.publish then Accept(id) else InternalError;
    }

    method ReserveOrStop(ghost n: nat, q: Request, id: ScanId, calls: Calls) returns (refusal: Option<Response>)
      requires Valid() && At(n, q, Clear) && id !in st.issued && id != NIL_SCAN
      modifies this`st, this`requests, this`trace
      ensures Valid() && (refusal.None? ==> Goes(old(requests), n, q, Holding(id)))
      ensures refusal == if !calls.reserve.Stored? then Some(Unavailable)
                         else if Open(old(st), q) then None else Some(Conflict)
      ensures refusal.None? ==> st == WithEntries(old(st), q, id)
      ensures refusal.Some? ==> Undone(old(st), st, calls)
    {
      ghost var before := st;
      refusal := Reserve(n, q, id, calls.reserve);
      if refusal.Some? && !calls.reserve.NotStored? {
        UnheardUndone(before, q, id, calls);
      }
    }

    /** From a clear target to the answer, for either family. */
    method AcceptScan(ghost n: nat, q: Request, id: ScanId, calls: Calls) returns (response: Response)
      requires Valid() && At(n, q, Clear) && id !in st.issued && id != NIL_SCAN
      modifies this`st, this`requests, this`trace
      ensures Valid()
      ensures response == FinalAnswer(old(st), Open(old(st), q), id, calls)
      ensures response.Accept? <==> Completes(old(st), calls) && Open(old(st), q)
      ensures response.Accept? ==> response.scan == id && Goes(old(requests), n, q, Accepted(id))
      ensures response.Accept? ==> st == AcceptedStores(old(st), q, id)
      ensures !response.Accept? ==> Undone(old(st), st, calls)
    {
      Fresh(origin, trace, id);
      ghost var before := st;
      var refusal := ReserveOrStop(n, q, id, calls);
      if refusal.Some? {
        return refusal.value;
      }
      response := ChargeAndPublish(n, q, id, calls);
      if !response.Accept? {
        EntriesUndone(before, st, q, id, calls);
      }
    }

    /** The wallet half of `PostDiscoveryScanV1`, after the body and the scanner presence were checked. */
    method PostWallet(ghost n: nat, user: Uuid, address: string, id: ScanId, calls: Calls) returns (response: Response)
      requires Valid() && n !in requests && id !in st.issued && id != NIL_SCAN
      modifies this`st, this`requests, this`trace
      ensures Valid()
      ensures var q := WalletRequest(user, address);
              && (response.Accept? <==>
                    WalletAdmitted(old(st), q, calls) && Vacated(old(st), q, calls) && Completes(old(st), calls))
              && response == WalletAnswer(old(st), q, id, calls)
              && (response.Accept? ==> response.scan == id && Goes(old(requests), n, q, Accepted(id)))
              && (response.Accept? ==> st == AcceptedStores(WithoutKey(old(st), q), q, id))
              && (!response.Accept? ==> WalletUndone(old(st), st, q, calls))
    {
      ghost var before := st;
      WalletAnswerAccepts(before, WalletRequest(user, address), id, calls);
      var refusal, q := PrepareWalletScanQueue(n, user, address, calls);
      if refusal.Some? {
        PurgedUndone(before, st, q, calls);
        return refusal.value;
      }
      PurgedIsOpen(before, q, calls);
      response := AcceptScan(n, q, id, calls);
      if !response.Accept? {
        PurgedUndone(before, st, q, calls);
      }
    }

    /** The TLS half. */
    method PostTLS(ghost n: nat, user: Uuid, url: string, id: ScanId, calls: Calls) returns (response: Response)
      requires Valid() && n !in requests && id !in st.issued && id != NIL_SCAN
      modifies this`st, this`requests, this`trace
      ensures Valid()
      ensures var q := Request(user, TlsScan, url, Looking);
              && (response.Accept? <==> calls.urlOk && Completes(old(st), calls))
              && response == (if calls.urlOk then FinalAnswer(old(st), true, id, calls) else BadRequest)
              && (response.Accept? ==> response.scan == id && Goes(old(requests), n, q, Accepted(id)))
              && (response.Accept? ==> st == AcceptedStores(old(st), q, id))
              && (!response.Accept? ==> Undone(old(st), st, calls))
    {
      if !calls.urlOk {
        return BadRequest;
      }
      var q := Request(user, TlsScan, url, Looking);
      Arrives(n, q);
      Steps(State(), q, Looking, Look(n));
      response := AcceptScan(n, q, id, calls);
    }

    /** `PostDiscoveryScanV1`. An accepted request leaves one message, its pending entries and, with plans, one
        credit. Any other answer leaves the queue alone and, if nothing stayed unheard and the compensating calls went
        through, the ledger and the pending store too, but for a stale reservation of the same wallet. */
    method PostScan(ghost n: nat, user: Uuid, address: string, url: string, id: ScanId, calls: Calls)
      returns (response: Response)
      requires Valid() && n !in requests && id !in st.issued && id != NIL_SCAN
      modifies this`st, this`requests, this`trace
      ensures Valid()
      ensures var q := WalletRequest(user, address);
              response.Accept? <==>
                && calls.scannerThere && (address == "" <==> url != "") && Completes(old(st), calls)
                && (if url != "" then calls.urlOk else WalletAdmitted(old(st), q, calls) && Vacated(old(st), q, calls))
      ensures var one := (address == "") != (url == "");
              var q := WalletRequest(user, address);
              var before := old(st);
              response ==
              if !one then BadRequest
              else if !calls.scannerThere then Unavailable
              else if url != "" && !calls.urlOk then BadRequest
              else if url == "" && !Address.IsValid(Address.Normalize(address)) then BadRequest
              else if url == "" && !calls.lookup then Unavailable
              else if url == "" && !CheckAnswers(before, q, calls) then InternalError
              else if url == "" && !Free(before, q) then Conflict
              else if url == "" && before.results && !calls.list then InternalError
              else if url == "" && before.results && NewestInFlight(before.rows, user, q.target) then Conflict
              else if url == "" && calls.policies.Err? then Unavailable
              else if url == "" && calls.policies.value != 0 then Conflict
              else if calls.reserve != Stored then Unavailable
              else if url == "" && Key(q) in before.reservations && !calls.purge then Conflict
              else if before.plans && calls.quota == No then Forbidden
              else if before.plans && calls.quota != Yes then InternalError
              else if !calls.publish then InternalError
              else Accept(id)
      ensures response.Accept? ==>
                var q := if url != "" then Request(user, TlsScan, url, Looking) else WalletRequest(user, address);
                && Goes(old(requests), n, q, Accepted(id))
                && st == AcceptedStores(if url != "" then old(st) else WithoutKey(old(st), q), q, id)
      ensures !response.Accept? ==> WalletUndone(old(st), st, WalletRequest(user, address), calls)
    {
      if (address != "") == (url != "") {
        return BadRequest;
      }
      if !calls.scannerThere {
        return Unavailable;
      }
      if address != "" {
        response := PostWallet(n, user, address, id, calls);
      } else {
        response := PostTLS(n, user, url, id, calls);
      }
    }
  }
}
