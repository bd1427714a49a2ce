/** The scan usage ledger (`internal/repository/scan_usage_ledger_repository.go`):
    one table of reserved scan ids and the two result tables it is counted against. */
module Ledger {
  import opened Domain

  datatype Usage = Usage(user: Uuid, kind: Kind)

  /** A result row. `owner` is empty for shared rows; `deleted` is the soft-delete mark;
      `catalog` is the "default" column, which only the endpoint queries look at. */
  datatype Row = Row(owner: Option<Uuid>, state: ScanState, deleted: bool, catalog: bool)

  /** The scan id is unique in every table, so each table is a map. */
  datatype Tables = Tables(events: map<ScanId, Usage>, wallets: map<ScanId, Row>, endpoints: map<ScanId, Row>)

  function Rows(t: Tables, k: Kind): map<ScanId, Row> {
    match k
    case Wallet => t.wallets
    case Endpoint => t.endpoints
    case Unsupported => map[]
  }

  /** Rows that the scoped queries see for this user and kind. */
  predicate Visible(row: Row, u: Uuid, k: Kind) {
    !row.deleted && row.owner == Some(u) && (k.Endpoint? ==> !row.catalog)
  }

  predicate InFlight(s: ScanState) {
    s.PENDING? || s.RUNNING? || s.Blank?
  }

  /** In flight are exactly the states a scan can still leave. */
  lemma InFlightIsUnfinished(s: ScanState)
    ensures InFlight(s) <==> exists t :: ValidTransition(s, t)
  {
    assert InFlight(s) ==> ValidTransition(s, FAILED);
  }

  /* The id sets behind the counts. */

  function LedgerIds(t: Tables, u: Uuid, k: Kind): set<ScanId> {
    set id | id in t.events && t.events[id] == Usage(u, k)
  }

  function InFlightIds(t: Tables, u: Uuid, k: Kind): set<ScanId> {
    set id | id in Rows(t, k) && Visible(Rows(t, k)[id], u, k) && InFlight(Rows(t, k)[id].state)
  }

  function SuccessIds(t: Tables, u: Uuid, k: Kind): set<ScanId> {
    set id | id in Rows(t, k) && Visible(Rows(t, k)[id], u, k) && Rows(t, k)[id].state.SUCCESS?
  }

  /** Reservations that no row answers yet; soft-deleted rows and rows of any owner do answer them. */
  function OpenIds(t: Tables, u: Uuid, k: Kind): set<ScanId> {
    set id | id in LedgerIds(t, u, k) && id !in Rows(t, k)
  }

  function ExtraIds(t: Tables, u: Uuid, k: Kind): set<ScanId> {
    set id | id in InFlightIds(t, u, k) && id !in LedgerIds(t, u, k)
  }

  /** What the plan quota bounds: reserved scans and scans in flight, each once. */
  function UsedIds(t: Tables, u: Uuid, k: Kind): set<ScanId> {
    LedgerIds(t, u, k) + InFlightIds(t, u, k)
  }

  /** What the parallel cap bounds: scans in flight and scans still waiting for a row. */
  function ParallelIds(t: Tables, u: Uuid, k: Kind): set<ScanId> {
    InFlightIds(t, u, k) + OpenIds(t, u, k)
  }

  datatype Snapshot = Snapshot(ledger: nat, extraInFlight: nat, parallel: nat)

  /** The four counts double-count nothing and miss nothing. */
  lemma SnapshotIsExact(t: Tables, u: Uuid, k: Kind)
    ensures |LedgerIds(t, u, k)| + |ExtraIds(t, u, k)| == |UsedIds(t, u, k)|
    ensures |InFlightIds(t, u, k)| + |OpenIds(t, u, k)| == |ParallelIds(t, u, k)|
  {
    assert UsedIds(t, u, k) == LedgerIds(t, u, k) + ExtraIds(t, u, k);
    assert LedgerIds(t, u, k) !! ExtraIds(t, u, k);
    assert InFlightIds(t, u, k) !! OpenIds(t, u, k);
  }

  datatype Deny = Allowed | DenyQuota | DenyParallel

  /** The guard order of `ReserveScanUsage`: quota first; a limit or cap of zero or less is not checked. */
  function Verdict(snap: Snapshot, limit: int, cap: int): Deny {
    if limit > 0 && snap.ledger + snap.extraInFlight >= limit then DenyQuota
    else if cap > 0 && snap.parallel >= cap then DenyParallel
    else Allowed
  }

  datatype Reservation = Reservation(deny: Deny, snap: Snapshot)

  /** Insert with ON CONFLICT (scan_id) DO NOTHING. */
  function Record(t: Tables, u: Uuid, id: ScanId, k: Kind): Tables {
    if id in t.events then t else t.(events := t.events[id := Usage(u, k)])
  }

  /** A scan is credited once: to the first who records it. */
  lemma FirstRecordStays(t: Tables, u: Uuid, id: ScanId, k: Kind, x: ScanId)
    ensures var v := Record(t, u, id, k);
            && v.wallets == t.wallets && v.endpoints == t.endpoints && id in v.events
            && (x in t.events ==> x in v.events && v.events[x] == t.events[x])
            && (id !in t.events ==> v.events[id] == Usage(u, k)) && (x in v.events ==> x in t.events || x == id)
  {
  }

  class LedgerRepository {
    var tables: Tables

    constructor (t: Tables)
      ensures tables == t
    {
      tables := t;
    }

    method LoadScanQuotaSnapshot(u: Uuid, k: Kind) returns (snap: Snapshot)
      ensures snap.ledger == |LedgerIds(tables, u, k)|
      ensures snap.ledger + snap.extraInFlight == |UsedIds(tables, u, k)|
      ensures snap.parallel == |ParallelIds(tables, u, k)|
    {
      var ledger := |LedgerIds(tables, u, k)|;
      var inFlight := |InFlightIds(tables, u, k)|;
      var extra := |ExtraIds(tables, u, k)|;
      var open := |OpenIds(tables, u, k)|;
      SnapshotIsExact(tables, u, k);
      snap := Snapshot(ledger, extra, inFlight + open);
    }

    method RecordSuccessUsage(u: Uuid, id: ScanId, k: Kind) returns (ok: bool)
      modifies this
      ensures ok == !k.Unsupported?
      ensures tables == if ok then Record(old(tables), u, id, k) else old(tables)
    {
      ok := !k.Unsupported?;
      if ok && id !in tables.events {
        tables := tables.(events := tables.events[id := Usage(u, k)]);
      }
    }

    /** One reservation without interference. `broken` is a transaction that the database aborts. */
    method ReserveScanUsage(u: Uuid, id: ScanId, k: Kind, limit: int, cap: int, broken: bool)
      returns (r: Result<Reservation>)
      modifies this
      ensures r.Ok? <==> id != NIL_SCAN && !k.Unsupported? && !broken
      ensures r.Err? ==> tables == old(tables)
      ensures r.Ok? ==>
                var used, parallel := |UsedIds(old(tables), u, k)|, |ParallelIds(old(tables), u, k)|;
                && r.value.deny == Verdict(r.value.snap, limit, cap)
                && (r.value.deny.DenyQuota? <==> 0 < limit <= used)
                && (r.value.deny.DenyParallel? <==> !(0 < limit <= used) && 0 < cap <= parallel)
                && r.value.snap.ledger == |LedgerIds(old(tables), u, k)|
                && r.value.snap.ledger + r.value.snap.extraInFlight == used
                && r.value.snap.parallel == parallel
                && tables == if r.value.deny.Allowed? then Record(old(tables), u, id, k) else old(tables)
    {
      if id == NIL_SCAN || k.Unsupported? || broken {
        return Err;
      }
      var snap := LoadScanQuotaSnapshot(u, k);
      if limit > 0 && snap.ledger + snap.extraInFlight >= limit {
        return Ok(Reservation(DenyQuota, snap));
      }
      if cap > 0 && snap.parallel >= cap {
        return Ok(Reservation(DenyParallel, snap));
      }
      var _ := RecordSuccessUsage(u, id, k);
      r := Ok(Reservation(Allowed, snap));
    }

    method ReleaseSuccessUsageByScanID(id: ScanId)
      modifies this
      ensures tables == old(tables).(events := old(tables).events - {id})
    {
      tables := tables.(events := tables.events - {id});
    }
  }

  /* The abandoner's notion of "open". */

  predicate LiveTerminal(rows: map<ScanId, Row>, id: ScanId) {
    id in rows && !rows[id].deleted && IsTerminal(rows[id].state)
  }

  /** `ListOpenScanReservations`: no live terminal row in either table. */
  function OpenReservations(t: Tables): set<ScanId> {
    set id | id in t.events && !LiveTerminal(t.wallets, id) && !LiveTerminal(t.endpoints, id)
  }

  /** A reserved id only ever has a row in the table of its kind. */
  ghost predicate RowsMatchKind(t: Tables) {
    forall id, k :: id in t.events && id in Rows(t, k) ==> t.events[id].kind == k
  }

  /** The abandoner watches what the parallel cap calls open, and besides exactly the reserved scans
      whose row is live and unfinished or soft-deleted. */
  lemma OpenNotionsRelate(t: Tables, u: Uuid, k: Kind)
    requires RowsMatchKind(t) && !k.Unsupported?
    ensures var live := set id | id in LedgerIds(t, u, k) && id in Rows(t, k) && !Rows(t, k)[id].deleted;
            var unfinished := set id | id in live && !IsTerminal(Rows(t, k)[id].state);
            var hidden := set id | id in LedgerIds(t, u, k) && id in Rows(t, k) && Rows(t, k)[id].deleted;
            && OpenReservations(t) * LedgerIds(t, u, k) == OpenIds(t, u, k) + unfinished + hidden
            && OpenIds(t, u, k) !! unfinished !! hidden
  {
    forall id | id in LedgerIds(t, u, k)
      ensures id in OpenReservations(t) <==> !LiveTerminal(Rows(t, k), id)
    {
      assert id in Rows(t, Wallet) ==> k == Wallet;
      assert id in Rows(t, Endpoint) ==> k == Endpoint;
    }
  }
}
