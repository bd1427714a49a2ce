/** Reading and deleting one scan, wallet or TLS (`internal/handler/discovery_v1_scans.go`), as concurrent deletes. Each
    call of a delete is one step, whose answer may get lost, and between any two of them other deletes, newly accepted
    scans, result rows, returned credits and catalog rows may come. */
module ScanDeletion {
  import opened Domain

  /** A row that was not deleted, of the wallet or of the TLS table. `catalog` marks a default TLS endpoint, shown to
      every user. */
  datatype Row = Row(owner: Uuid, family: Family, catalog: bool)

  datatype Pending = Pending(user: Uuid, family: Family)

  datatype Status = NoContent | NotFound | Conflict | ReadUnavailable | CheckUnavailable

  datatype Answer = Detail | Requested | Missing

  /** `row` says whether the delete is about a row or about a pending record. */
  datatype Pc =
    | Reading
    | Asking
    | Checking(row: bool)
    | Removing
    | Forgetting(row: bool)
    | Done(status: Status, row: bool)

  /** One `DELETE`; `cleared` once the policy check answered "not referenced", `forgot` once its delete of the pending
      record took effect. */
  datatype Delete = Delete(family: Family, user: Uuid, id: ScanId, cleared: bool, forgot: bool, pc: Pc)

  /** A call that removes something: answered, or not answered with or without having taken effect, or not answered
      and then tried again by the client, which finds nothing any more. */
  datatype Call = Answered | Unheard | Failed | Retried
  type Once = c: Call | !c.Retried? witness Answered

  /** `hasPending` and `plans`: are the pending store and a plan service configured? `reservations` is the wallet index
      of the pending store; `created` are the scans that ever had a row, `ended` those that finished, `dropped`
      those whose pending entries were cleared at the end, `issued` the scan ids handed out and for whom. */
  datatype Stores = Stores(
    hasPending: bool, plans: bool, rows: map<ScanId, Row>,
    pending: map<ScanId, Pending>, reservations: map<(Uuid, string), ScanId>, ledger: set<ScanId>,
    created: set<ScanId>, ended: set<ScanId>, dropped: set<ScanId>, issued: map<ScanId, Pending>)

  datatype World = World(st: Stores, deletes: map<nat, Delete>)

  /** The row is in the table of this family. */
  predicate HasRow(st: Stores, f: Family, id: ScanId) {
    id in st.rows && st.rows[id].family == f
  }

  predicate IsCatalog(st: Stores, id: ScanId) {
    id in st.rows && st.rows[id].catalog
  }

  /** The row a user gets to see. */
  predicate Seen(st: Stores, f: Family, u: Uuid, id: ScanId) {
    HasRow(st, f, id) && (st.rows[id].owner == u || (f.TlsScan? && IsCatalog(st, id)))
  }

  /** The row a user can delete. */
  predicate OwnRow(st: Stores, f: Family, u: Uuid, id: ScanId) {
    Seen(st, f, u, id) && !(f.TlsScan? && IsCatalog(st, id))
  }

  predicate Waiting(st: Stores, f: Family, u: Uuid, id: ScanId) {
    id in st.pending && st.pending[id] == Pending(u, f)
  }

  /** What `GET` answers when no call fails. */
  function Shown(st: Stores, f: Family, u: Uuid, id: ScanId): Answer {
    if Seen(st, f, u, id) then Detail else if st.hasPending && Waiting(st, f, u, id) then Requested else Missing
  }

  /** A scan gets at most one row; with plans, only while it is reserved. */
  predicate CanGetRow(st: Stores, id: ScanId) {
    id in st.issued && id !in st.created && (st.plans ==> id in st.ledger)
  }

  datatype Step =
    | Begin(n: nat, family: Family, user: Uuid, id: ScanId)
    | ReadRow(n: nat, ok: bool)
    | ReadPending(n: nat, ok: bool)
    | Policy(n: nat, referenced: Option<bool>)
    | Remove(n: nat, how: Call)
    | Forget(n: nat, once: Once)
    | Accept(id: ScanId, user: Uuid, family: Family, target: string)
    | CreateRow(id: ScanId)
    | ReturnCredit(id: ScanId)
    | End(id: ScanId)
    | DropEntries(id: ScanId)
    | CreateCatalogRow(id: ScanId, user: Uuid)

  predicate ByDelete(s: Step) {
    s.ReadRow? || s.ReadPending? || s.Policy? || s.Remove? || s.Forget?
  }

  /** Accepted scans and catalog scans have fresh ids. The pending entries of a scan that ended may be cleared. The
      client tries to delete a row twice, a pending record once. */
  predicate Enabled(w: World, s: Step) {
    match s
    case Begin(n, _, _, _) => n !in w.deletes
    case ReadRow(n, _) => n in w.deletes && w.deletes[n].pc.Reading?
    case ReadPending(n, _) => n in w.deletes && w.deletes[n].pc.Asking?
    case Policy(n, _) => n in w.deletes && w.deletes[n].pc.Checking?
    case Remove(n, _) => n in w.deletes && w.deletes[n].pc.Removing?
    case Forget(n, _) => n in w.deletes && w.deletes[n].pc.Forgetting?
    case Accept(id, user, family, target) =>
      id !in w.st.issued && (family.WalletScan? ==> (user, target) !in w.st.reservations)
    case CreateRow(id) => CanGetRow(w.st, id)
    case ReturnCredit(id) => id in w.st.ledger
    case End(id) => id in w.st.created
    case DropEntries(id) => id in w.st.ended
    case CreateCatalogRow(id, _) => id !in w.st.issued
  }

  /** Where a delete goes next. A catalog row counts as not found. */
  function PcAfterRead(st: Stores, d: Delete, ok: bool): Pc {
    if !ok then Done(ReadUnavailable, false)
    else if OwnRow(st, d.family, d.user, d.id) then Checking(true)
    else if st.hasPending then Asking
    else Done(NotFound, false)
  }

  function PcAfterAsk(st: Stores, d: Delete, ok: bool): Pc {
    if !ok then Done(CheckUnavailable, false)
    else if Waiting(st, d.family, d.user, d.id) then Checking(false)
    else Done(NotFound, false)
  }

  function AfterPolicy(d: Delete, referenced: Option<bool>): Delete
    requires d.pc.Checking?
  {
    if referenced == Some(false) then d.(cleared := true, pc := if d.pc.row then Removing else Forgetting(false))
    else d.(pc := Done(if referenced.None? then CheckUnavailable else Conflict, d.pc.row))
  }

  /** Persistence answers "not deleted" if the row is no longer there. */
  function PcAfterRemove(st: Stores, d: Delete, how: Call): Pc {
    if how.Unheard? || how.Failed? then Done(ReadUnavailable, true)
    else if how.Retried? || !OwnRow(st, d.family, d.user, d.id) then Done(NotFound, true)
    else if st.hasPending then Forgetting(true)
    else Done(NoContent, true)
  }

  function WithoutRow(st: Stores, d: Delete, how: Call): Stores {
    if how.Failed? || !OwnRow(st, d.family, d.user, d.id) then st else st.(rows := st.rows - {d.id})
  }

  function AfterForget(d: Delete, how: Once): Delete
    requires d.pc.Forgetting?
  {
    d.(forgot := d.forgot || !how.Failed?, pc := Done(if how.Answered? then NoContent else CheckUnavailable, d.pc.row))
  }

  /** The pending store's delete is scoped to the owner and takes the reservations of the scan along. */
  function WithoutPending(st: Stores, d: Delete, how: Once): Stores {
    if how.Failed? then st
    else
      st.(pending := map x | x in st.pending && (x != d.id || st.pending[x].user != d.user) :: st.pending[x],
          reservations := map k | k in st.reservations && (k.0 != d.user || st.reservations[k] != d.id)
                            :: st.reservations[k])
  }

  function WithoutEntries(st: Stores, id: ScanId): Stores {
    st.(pending := st.pending - {id}, dropped := st.dropped + {id},
        reservations := map k | k in st.reservations && st.reservations[k] != id :: st.reservations[k])
  }

  function WithRow(st: Stores, id: ScanId, row: Row): Stores {
    st.(rows := st.rows[id := row], created := st.created + {id})
  }

  function WithScan(st: Stores, id: ScanId, user: Uuid, family: Family, target: string): Stores {
    st.(issued := st.issued[id := Pending(user, family)], pending := st.pending[id := Pending(user, family)],
        ledger := if st.plans then st.ledger + {id} else st.ledger,
        reservations := if family.WalletScan? then st.reservations[(user, target) := id] else st.reservations)
  }

  /** What a step does to the stores, */
  function StoresAfter(w: World, s: Step): Stores
    requires Enabled(w, s)
  {
    match s
    case Remove(n, how) => WithoutRow(w.st, w.deletes[n], how)
    case Forget(n, how) => WithoutPending(w.st, w.deletes[n], how)
    case Accept(id, user, family, target) => WithScan(w.st, id, user, family, target)
    case CreateRow(id) => WithResult(w.st, id)
    case ReturnCredit(id) => w.st.(ledger := w.st.ledger - {id})
    case End(id) => w.st.(ended := w.st.ended + {id})
    case DropEntries(id) => WithoutEntries(w.st, id)
    case CreateCatalogRow(id, user) => WithCatalogRow(w.st, id, user)
    case _ => w.st
  }

  /** and to the delete that takes it. */
  function DeleteAfter(w: World, s: Step): Delete
    requires Enabled(w, s) && ByDelete(s)
  {
    var d := w.deletes[s.n];
    match s
    case ReadRow(_, ok) => d.(pc := PcAfterRead(w.st, d, ok))
    case ReadPending(_, ok) => d.(pc := PcAfterAsk(w.st, d, ok))
    case Policy(_, referenced) => AfterPolicy(d, referenced)
    case Remove(_, how) => d.(pc := PcAfterRemove(w.st, d, how))
    case Forget(_, how) => AfterForget(d, how)
  }

  function Next(w: World, s: Step): World
    requires Enabled(w, s)
  {
    World(StoresAfter(w, s),
          if s.Begin? then w.deletes[s.n := Delete(s.family, s.user, s.id, false, false, Reading)]
          else if ByDelete(s) then w.deletes[s.n := DeleteAfter(w, s)]
          else w.deletes)
  }

  ghost predicate Run(w: World, steps: seq<Step>)
    decreases |steps|
  {
    steps == [] || (Enabled(w, steps[0]) && Run(Next(w, steps[0]), steps[1..]))
  }

  ghost function Final(w: World, steps: seq<Step>): World
    requires Run(w, steps)
    decreases |steps|
  {
    if steps == [] then w else Final(Next(w, steps[0]), steps[1..])
  }

  lemma {:induction false} RunConcat(w: World, first: seq<Step>, last: seq<Step>)
    requires Run(w, first) && Run(Final(w, first), last)
    ensures Run(w, first + last) && Final(w, first + last) == Final(Final(w, first), last)
    decreases |first|
  {
    if first == [] {
      assert first + last == last;
    } else {
      assert (first + last)[1..] == first[1..] + last;
      RunConcat(Next(w, first[0]), first[1..], last);
    }
  }

  /** One more step at the end of a run. */
  lemma Append(w: World, t: seq<Step>, s: Step)
    requires Run(w, t) && Enabled(Final(w, t), s)
    ensures Run(w, t + [s]) && Final(w, t + [s]) == Next(Final(w, t), s)
  {
    var u := Final(w, t);
    assert [s][1..] == [];
    assert Run(u, [s]) && Final(u, [s]) == Next(u, s) by {
      assert Run(Next(u, s), []) && Final(Next(u, s), []) == Next(u, s);
    }
    RunConcat(w, t, [s]);
  }

  /* ---- The invariant ---- */

  /** Rows and pending records belong to the user and the family their id was issued for; catalog rows have none. */
  ghost predicate ScanOk(st: Stores, id: ScanId) {
    && (id in st.pending ==> id in st.issued && st.pending[id] == st.issued[id] && !IsCatalog(st, id))
    && (id in st.rows ==>
          id in st.created && id in st.issued && st.issued[id] == Pending(st.rows[id].owner, st.rows[id].family))
    && (IsCatalog(st, id) ==> st.rows[id].family.TlsScan?)
    && (id in st.created ==> id in st.issued) && (id in st.dropped ==> id in st.ended && id !in st.pending)
    && (id in st.ended ==> id in st.created) && (id in st.ledger ==> id in st.issued && !IsCatalog(st, id))
  }

  /** The delete found a scan of its user: past the lookup, it is about an issued id that is not in the catalog. */
  predicate Aims(st: Stores, d: Delete) {
    d.id in st.issued && st.issued[d.id] == Pending(d.user, d.family) && !IsCatalog(st, d.id)
  }

  predicate RowGone(st: Stores, d: Delete) {
    d.id in st.created && d.id !in st.rows
  }

  /** No reservation of this user names the scan. */
  ghost predicate Unreserved(st: Stores, u: Uuid, id: ScanId) {
    forall k :: k in st.reservations && k.0 == u ==> st.reservations[k] != id
  }

  ghost predicate DeleteOk(st: Stores, d: Delete) {
    && (d.forgot ==> d.pc.Done? && Aims(st, d) && d.id !in st.pending && Unreserved(st, d.user, d.id))
    && match d.pc
       case Asking => st.hasPending
       case Checking(row) => Aims(st, d) && (if row then d.id in st.created else st.hasPending)
       case Removing => d.cleared && Aims(st, d) && d.id in st.created
       case Forgetting(row) => d.cleared && st.hasPending && Aims(st, d) && (row ==> RowGone(st, d))
       case Done(status, row) =>
         status.NoContent? ==>
           && Aims(st, d) && (st.hasPending ==> d.forgot) && (if row then RowGone(st, d) else st.hasPending)
       case _ => true
  }

  ghost predicate Inv(w: World) {
    && (forall id :: ScanOk(w.st, id))
    && (forall n :: n in w.deletes ==> DeleteOk(w.st, w.deletes[n]))
  }

  /** No delete under way, and stores in which every id was issued. */
  ghost predicate Start(w: World) {
    w.deletes == map[] && forall id :: ScanOk(w.st, id)
  }

  /** About an issued scan, stores only forget, except that it gets its one row. */
  ghost predicate Ages(st: Stores, v: Stores, id: ScanId) {
    && v.hasPending == st.hasPending && v.plans == st.plans
    && (id in st.issued ==>
          forall k :: k in v.reservations && v.reservations[k] == id ==>
                        k in st.reservations && st.reservations[k] == id)
    && (id in st.issued ==>
          && id in v.issued && v.issued[id] == st.issued[id] && (id in st.created ==> id in v.created)
          && (id in st.ended ==> id in v.ended) && (id in st.dropped ==> id in v.dropped)
          && (id in v.pending ==> id in st.pending && v.pending[id] == st.pending[id])
          && (id in v.ledger ==> id in st.ledger) && (IsCatalog(v, id) <==> IsCatalog(st, id))
          && (id in v.created && id !in st.created ==> CanGetRow(st, id))
          && (id in st.created && id in v.rows ==> id in st.rows && v.rows[id] == st.rows[id]))
  }

  lemma RemovingIsFine(st: Stores, d: Delete, how: Call, id: ScanId)
    requires ScanOk(st, id)
    ensures ScanOk(WithoutRow(st, d, how), id) && Ages(st, WithoutRow(st, d, how), id)
  {
  }

  lemma ForgettingIsFine(st: Stores, d: Delete, how: Once, id: ScanId)
    requires ScanOk(st, id)
    ensures ScanOk(WithoutPending(st, d, how), id) && Ages(st, WithoutPending(st, d, how), id)
  {
  }

  lemma DroppingIsFine(st: Stores, x: ScanId, id: ScanId)
    requires ScanOk(st, id) && x in st.ended
    ensures ScanOk(WithoutEntries(st, x), id) && Ages(st, WithoutEntries(st, x), id)
  {
  }

  /** The row of an issued scan, in its own table. */
  function WithResult(st: Stores, x: ScanId): Stores
    requires x in st.issued
  {
    WithRow(st, x, Row(st.issued[x].user, st.issued[x].family, false))
  }

  lemma RowIsOk(st: Stores, x: ScanId, id: ScanId)
    requires ScanOk(st, id) && CanGetRow(st, x)
    ensures ScanOk(WithResult(st, x), id)
  {
  }

  lemma RowAges(st: Stores, x: ScanId, id: ScanId)
    requires ScanOk(st, id) && CanGetRow(st, x)
    ensures Ages(st, WithResult(st, x), id)
  {
  }

  function WithCatalogRow(st: Stores, x: ScanId, user: Uuid): Stores {
    WithRow(st.(issued := st.issued[x := Pending(user, TlsScan)]), x, Row(user, TlsScan, true))
  }

  lemma CatalogRowIsFine(st: Stores, x: ScanId, user: Uuid, id: ScanId)
    requires ScanOk(st, id) && x !in st.issued
    ensures ScanOk(WithCatalogRow(st, x, user), id) && Ages(st, WithCatalogRow(st, x, user), id)
  {
  }

  lemma StoresStep(w: World, s: Step, id: ScanId)
    requires Enabled(w, s) && ScanOk(w.st, id)
    ensures ScanOk(StoresAfter(w, s), id) && Ages(w.st, StoresAfter(w, s), id)
  {
    match s
    case Remove(n, how) => RemovingIsFine(w.st, w.deletes[n], how, id);
    case Forget(n, how) => ForgettingIsFine(w.st, w.deletes[n], how, id);
    case DropEntries(x) => DroppingIsFine(w.st, x, id);
    case CreateRow(x) => RowIsOk(w.st, x, id); RowAges(w.st, x, id);
    case CreateCatalogRow(x, user) => CatalogRowIsFine(w.st, x, user, id);
    case _ =>
  }

  lemma OldDeleteKeeps(st: Stores, v: Stores, d: Delete)
    requires Ages(st, v, d.id) && DeleteOk(st, d)
    ensures DeleteOk(v, d)
  {
  }

  lemma OwnDeleteStep(w: World, s: Step)
    requires Enabled(w, s) && ByDelete(s) && ScanOk(w.st, w.deletes[s.n].id) && DeleteOk(w.st, w.deletes[s.n])
    ensures DeleteOk(StoresAfter(w, s), DeleteAfter(w, s))
  {
  }

  lemma InvStep(w: World, s: Step)
    requires Inv(w) && Enabled(w, s)
    ensures Inv(Next(w, s))
  {
    forall id ensures ScanOk(StoresAfter(w, s), id) && Ages(w.st, StoresAfter(w, s), id) {
      StoresStep(w, s, id);
    }
    forall n | n in Next(w, s).deletes ensures DeleteOk(StoresAfter(w, s), Next(w, s).deletes[n]) {
      if ByDelete(s) && s.n == n {
        OwnDeleteStep(w, s);
      } else if n in w.deletes {
        OldDeleteKeeps(w.st, StoresAfter(w, s), w.deletes[n]);
      }
    }
  }

  lemma {:induction false} InvRun(w: World, steps: seq<Step>)
    requires Inv(w) && Run(w, steps)
    ensures Inv(Final(w, steps))
    decreases |steps|
  {
    if steps != [] {
      InvStep(w, steps[0]);
      InvRun(Next(w, steps[0]), steps[1..]);
    }
  }

  lemma {:induction false} AgesRun(w: World, steps: seq<Step>, id: ScanId)
    requires Inv(w) && Run(w, steps)
    ensures Ages(w.st, Final(w, steps).st, id)
    decreases |steps|
  {
    if steps != [] {
      StoresStep(w, steps[0], id);
      InvStep(w, steps[0]);
      AgesRun(Next(w, steps[0]), steps[1..], id);
    }
  }

  /** An answered delete stays as it is, and every delete keeps its user, its scan and its clearance. */
  lemma {:induction false} DeletesStay(w: World, steps: seq<Step>, n: nat)
    requires Run(w, steps) && n in w.deletes
    ensures var v := Final(w, steps);
            && n in v.deletes && v.deletes[n].user == w.deletes[n].user && v.deletes[n].id == w.deletes[n].id
            && (w.deletes[n].cleared ==> v.deletes[n].cleared) && (w.deletes[n].forgot ==> v.deletes[n].forgot)
            && (w.deletes[n].pc.Done? ==> v.deletes[n] == w.deletes[n])
    decreases |steps|
  {
    if steps != [] {
      DeletesStay(Next(w, steps[0]), steps[1..], n);
    }
  }

  /* ---- When a 204 stays a 404 ---- */

  ghost predicate Reaches(w: World, v: World) {
    exists steps :: Run(w, steps) && Final(w, steps) == v
  }

  lemma Here(w: World)
    ensures Reaches(w, w)
  {
    assert Run(w, []) && Final(w, []) == w;
  }

  lemma Then(w: World, u: World, s: Step)
    requires Reaches(w, u) && Enabled(u, s)
    ensures Reaches(w, Next(u, s))
  {
    var steps :| Run(w, steps) && Final(w, steps) == u;
    Append(w, steps, s);
  }

  predicate Answered204(w: World, n: nat) {
    n in w.deletes && w.deletes[n].pc.Done? && w.deletes[n].pc.status.NoContent?
  }

  ghost predicate MissingForGood(w: World, d: Delete) {
    forall v :: Reaches(w, v) ==> Shown(v.st, d.family, d.user, d.id).Missing?
  }

  lemma StaysMissing(w: World, steps: seq<Step>, n: nat)
    requires Inv(w) && Run(w, steps) && Answered204(w, n)
    requires var d := w.deletes[n];
             d.pc.row || (!Seen(w.st, d.family, d.user, d.id) && !CanGetRow(w.st, d.id))
    ensures var d := w.deletes[n]; Shown(Final(w, steps).st, d.family, d.user, d.id).Missing?
  {
    var d := w.deletes[n];
    InvRun(w, steps);
    AgesRun(w, steps, d.id);
    DeletesStay(w, steps, n);
    assert DeleteOk(w.st, d) && DeleteOk(Final(w, steps).st, d);
    assert ScanOk(w.st, d.id) && ScanOk(Final(w, steps).st, d.id);
  }

  lemma ResultAppears(w: World, id: ScanId)
    requires CanGetRow(w.st, id)
    ensures Reaches(w, Next(w, CreateRow(id)))
    ensures Shown(StoresAfter(w, CreateRow(id)), w.st.issued[id].family, w.st.issued[id].user, id).Detail?
  {
    Here(w);
    Then(w, w, CreateRow(id));
  }

  /** After a 204 the scan is missing in every continuation if and only if the delete removed a row, or none is shown
      now and the scan can no longer get one: a delete that only found a pending record stops nothing. */
  lemma DeletedForGoodIff(w: World, steps: seq<Step>, n: nat)
    requires Start(w) && Run(w, steps) && Answered204(Final(w, steps), n)
    ensures var u := Final(w, steps); var d := u.deletes[n];
            MissingForGood(u, d) <==> d.pc.row || (!Seen(u.st, d.family, d.user, d.id) && !CanGetRow(u.st, d.id))
  {
    InvRun(w, steps);
    var u := Final(w, steps);
    var d := u.deletes[n];
    assert DeleteOk(u.st, d);
    if d.pc.row || (!Seen(u.st, d.family, d.user, d.id) && !CanGetRow(u.st, d.id)) {
      forall v | Reaches(u, v) ensures Shown(v.st, d.family, d.user, d.id).Missing? {
        var more :| Run(u, more) && Final(u, more) == v;
        StaysMissing(u, more, n);
      }
    } else {
      Here(u);
      if CanGetRow(u.st, d.id) {
        ResultAppears(u, d.id);
      }
    }
  }

  /** The delete of a requested scan up to its clearance. */
  lemma ClearsPending(w: World, n: nat, d: Delete) returns (v: World)
    requires n !in w.deletes && w.st.hasPending && Waiting(w.st, d.family, d.user, d.id)
    requires !OwnRow(w.st, d.family, d.user, d.id)
    ensures var cleared := d.(cleared := true, forgot := false, pc := Forgetting(false));
            Reaches(w, v) && v == World(w.st, w.deletes[n := cleared])
  {
    var w1 := Next(w, Begin(n, d.family, d.user, d.id));
    var w2 := Next(w1, ReadRow(n, true));
    var w3 := Next(w2, ReadPending(n, true));
    v := Next(w3, Policy(n, Some(false)));
    Here(w);
    Then(w, w, Begin(n, d.family, d.user, d.id));
    Then(w, w1, ReadRow(n, true));
    Then(w, w2, ReadPending(n, true));
    Then(w, w3, Policy(n, Some(false)));
  }

  /** Every requested scan that can still get its row can be answered 204 and be shown again later; and a row that
      arrives before the last call is shown at the very moment of the 204. */
  lemma RequestedScanReturns(w: World, n: nat, d: Delete) returns (gone: World, back: World, raced: World)
    requires Inv(w) && n !in w.deletes && w.st.hasPending && Waiting(w.st, d.family, d.user, d.id)
    requires CanGetRow(w.st, d.id)
    ensures Reaches(w, gone) && Answered204(gone, n) && Shown(gone.st, d.family, d.user, d.id).Missing?
    ensures Reaches(gone, back) && Shown(back.st, d.family, d.user, d.id).Detail?
    ensures Reaches(w, raced) && Answered204(raced, n) && Shown(raced.st, d.family, d.user, d.id).Detail?
  {
    assert ScanOk(w.st, d.id);
    var v := ClearsPending(w, n, d);
    gone := Next(v, Forget(n, Answered));
    Then(w, v, Forget(n, Answered));
    ResultAppears(gone, d.id);
    back := Next(gone, CreateRow(d.id));
    var u := Next(v, CreateRow(d.id));
    raced := Next(u, Forget(n, Answered));
    Then(w, v, CreateRow(d.id));
    Then(w, u, Forget(n, Answered));
  }

  /* ---- What a delete may remove ---- */

  /** Some delete of this scan by this user was cleared by the policy check. */
  ghost predicate ClearedBy(w: World, u: Uuid, id: ScanId) {
    exists n :: n in w.deletes && w.deletes[n].cleared && w.deletes[n].user == u && w.deletes[n].id == id
  }

  lemma ClearedStays(w: World, steps: seq<Step>, u: Uuid, id: ScanId)
    requires Run(w, steps) && ClearedBy(w, u, id)
    ensures ClearedBy(Final(w, steps), u, id)
  {
    var n :| n in w.deletes && w.deletes[n].cleared && w.deletes[n].user == u && w.deletes[n].id == id;
    DeletesStay(w, steps, n);
  }

  lemma RowStep(w: World, s: Step, id: ScanId)
    requires Inv(w) && Enabled(w, s) && id in w.st.rows
    ensures id in StoresAfter(w, s).rows ==> StoresAfter(w, s).rows[id] == w.st.rows[id]
    ensures id !in StoresAfter(w, s).rows ==> ClearedBy(Next(w, s), w.st.rows[id].owner, id) && !w.st.rows[id].catalog
  {
    assert ScanOk(w.st, id);
    if s.Remove? {
      assert DeleteOk(w.st, w.deletes[s.n]) && Next(w, s).deletes[s.n].cleared;
    }
  }

  /** In every run a row goes only after a delete by its owner was cleared, and a catalog row never goes. */
  lemma {:induction false} RowsGoOnlyWhenCleared(w: World, steps: seq<Step>, id: ScanId)
    requires Inv(w) && Run(w, steps) && id in w.st.rows
    ensures var v := Final(w, steps);
            && (id in v.st.rows ==> v.st.rows[id] == w.st.rows[id])
            && (id !in v.st.rows ==> ClearedBy(v, w.st.rows[id].owner, id) && !w.st.rows[id].catalog)
    decreases |steps|
  {
    if steps != [] {
      var u := Next(w, steps[0]);
      RowStep(w, steps[0], id);
      InvStep(w, steps[0]);
      if id in u.st.rows {
        RowsGoOnlyWhenCleared(u, steps[1..], id);
      } else {
        ClearedStays(u, steps[1..], w.st.rows[id].owner, id);
        StoresStep(w, steps[0], id);
        AgesRun(u, steps[1..], id);
        assert ScanOk(w.st, id);
      }
    }
  }

  /** Some delete of this scan by this user took its pending record away: it was answered 204, or its last answer was
      lost. */
  ghost predicate TakenBy(w: World, u: Uuid, id: ScanId) {
    exists n :: n in w.deletes && w.deletes[n].forgot && w.deletes[n].user == u && w.deletes[n].id == id
  }

  lemma TakenStays(w: World, steps: seq<Step>, u: Uuid, id: ScanId)
    requires Run(w, steps) && TakenBy(w, u, id)
    ensures TakenBy(Final(w, steps), u, id)
  {
    var n :| n in w.deletes && w.deletes[n].forgot && w.deletes[n].user == u && w.deletes[n].id == id;
    DeletesStay(w, steps, n);
  }

  lemma PendingStep(w: World, s: Step, id: ScanId)
    requires Inv(w) && Enabled(w, s) && id in w.st.pending
    ensures id in StoresAfter(w, s).pending ==> StoresAfter(w, s).pending[id] == w.st.pending[id]
    ensures var u, v := w.st.pending[id].user, Next(w, s);
            id !in v.st.pending ==> id in v.st.dropped || (TakenBy(v, u, id) && ClearedBy(v, u, id))
  {
    assert ScanOk(w.st, id);
    if s.Forget? {
      var d := Next(w, s).deletes[s.n];
      assert DeleteOk(w.st, w.deletes[s.n]) && d.cleared && (s.once.Failed? || d.forgot);
    }
  }

  /** In every run a pending record goes only after a delete by its user was cleared, or after its scan ended. It is
      gone if and only if a delete by its user was answered 204 or had its last answer lost, or it was cleared at the
      end of the scan. */
  lemma {:induction false} RecordGoneIff(w: World, steps: seq<Step>, id: ScanId)
    requires Inv(w) && Run(w, steps) && id in w.st.pending
    ensures var v, u := Final(w, steps), w.st.pending[id].user;
            && (id in v.st.pending ==> v.st.pending[id] == w.st.pending[id])
            && (id !in v.st.pending ==> ClearedBy(v, u, id) || id in v.st.ended)
            && (id !in v.st.pending <==> TakenBy(v, u, id) || id in v.st.dropped)
    decreases |steps|
  {
    var user := w.st.pending[id].user;
    InvRun(w, steps);
    assert ScanOk(w.st, id) && ScanOk(Final(w, steps).st, id);
    if steps != [] {
      var u := Next(w, steps[0]);
      PendingStep(w, steps[0], id);
      InvStep(w, steps[0]);
      if id in u.st.pending {
        RecordGoneIff(u, steps[1..], id);
      } else {
        RecordStaysGone(w, steps, id);
      }
    } else {
      NotTakenWhileThere(w, id);
    }
  }

  lemma NotTakenWhileThere(w: World, id: ScanId)
    requires Inv(w) && id in w.st.pending
    ensures !TakenBy(w, w.st.pending[id].user, id) && id !in w.st.dropped
  {
    assert ScanOk(w.st, id);
    forall n | n in w.deletes ensures !(w.deletes[n].forgot && w.deletes[n].id == id) {
      assert DeleteOk(w.st, w.deletes[n]);
    }
  }

  /** A record that the first step took stays away, and so does the reason. */
  lemma RecordStaysGone(w: World, steps: seq<Step>, id: ScanId)
    requires Inv(w) && Run(w, steps) && steps != [] && id in w.st.pending && id !in Next(w, steps[0]).st.pending
    ensures var v, u := Final(w, steps), w.st.pending[id].user;
            && id !in v.st.pending && (id in v.st.dropped || (TakenBy(v, u, id) && ClearedBy(v, u, id)))
            && (id in v.st.dropped ==> id in v.st.ended)
  {
    var u, user := Next(w, steps[0]), w.st.pending[id].user;
    assert ScanOk(w.st, id);
    PendingStep(w, steps[0], id);
    InvStep(w, steps[0]);
    StoresStep(w, steps[0], id);
    AgesRun(u, steps[1..], id);
    InvRun(u, steps[1..]);
    assert ScanOk(Final(w, steps).st, id);
    if id !in u.st.dropped {
      TakenStays(u, steps[1..], user, id);
      ClearedStays(u, steps[1..], user, id);
    }
  }

  /** A scan whose row is gone is shown as requested exactly as long as no delete by its user was answered 204 or had
      its last answer lost, and nothing cleared its entries at the end: whatever else happened to the row. */
  lemma RemovedScanIsRequestedIff(w: World, steps: seq<Step>, f: Family, u: Uuid, id: ScanId)
    requires Inv(w) && Run(w, steps) && w.st.hasPending && Waiting(w.st, f, u, id)
    requires id in Final(w, steps).st.created && id !in Final(w, steps).st.rows
    ensures var v := Final(w, steps);
            && (Shown(v.st, f, u, id).Requested? <==> !TakenBy(v, u, id) && id !in v.st.dropped)
            && (Shown(v.st, f, u, id).Missing? <==> TakenBy(v, u, id) || id in v.st.dropped)
  {
    RecordGoneIff(w, steps, id);
    AgesRun(w, steps, id);
  }

  /** A delete that took the pending record away left no reservation of its user for the scan, then and ever after. */
  lemma DeleteFreesTheReservation(w: World, steps: seq<Step>, n: nat, k: (Uuid, string))
    requires Start(w) && Run(w, steps) && n in Final(w, steps).deletes && k in Final(w, steps).st.reservations
    ensures var v := Final(w, steps);
            (v.deletes[n].forgot || (Answered204(v, n) && v.st.hasPending)) && k.0 == v.deletes[n].user ==>
              v.st.reservations[k] != v.deletes[n].id
  {
    InvRun(w, steps);
    assert DeleteOk(Final(w, steps).st, Final(w, steps).deletes[n]);
  }

  /** The calls of a delete touch its own scan only: every other row, pending record and reservation stays. */
  lemma DeletesTouchTheirScanOnly(w: World, s: Step, x: ScanId, k: (Uuid, string))
    requires Enabled(w, s) && ByDelete(s) && x != w.deletes[s.n].id
    ensures var st, v := w.st, Next(w, s).st;
            && (x in v.rows <==> x in st.rows) && (x in st.rows ==> v.rows[x] == st.rows[x])
            && (x in v.pending <==> x in st.pending) && (x in st.pending ==> v.pending[x] == st.pending[x])
            && (k in st.reservations && st.reservations[k] == x <==> k in v.reservations && v.reservations[k] == x)
  {
  }

  /** No delete is ever answered 204 for a catalog row. */
  lemma CatalogIsNeverDeleted(w: World, steps: seq<Step>, n: nat)
    requires Start(w) && Run(w, steps) && Answered204(Final(w, steps), n)
    ensures !IsCatalog(Final(w, steps).st, Final(w, steps).deletes[n].id)
  {
    InvRun(w, steps);
    assert DeleteOk(Final(w, steps).st, Final(w, steps).deletes[n]);
  }

  lemma DeletesKeepTheLedger(w: World, s: Step)
    requires Enabled(w, s) && (ByDelete(s) || s.Begin?)
    ensures Next(w, s).st.ledger == w.st.ledger
  {
  }

  /* ---- Delete and GET ---- */

  /** The lookup of a delete, both calls in one state. */
  function LookupPc(st: Stores, d: Delete): Pc {
    var pc := PcAfterRead(st, d, true);
    if pc.Asking? then PcAfterAsk(st, d, true) else pc
  }

  /** Delete finds what `GET` shows, except for catalog rows. */
  lemma DeleteFindsWhatGetShows(st: Stores, d: Delete)
    requires ScanOk(st, d.id)
    ensures LookupPc(st, d) == Done(NotFound, false) <==>
            Shown(st, d.family, d.user, d.id).Missing? || (d.family.TlsScan? && IsCatalog(st, d.id))
  {
  }

  /** A delete whose row another delete removed answers 404 and leaves the pending record. If the other one fails to
      clear it, both are answered with an error and the scan is shown as requested. */
  lemma RaceLeavesRequested(w: World, m: nat, n: nat, d: Delete) returns (v: World)
    requires Inv(w) && m !in w.deletes && n !in w.deletes && m != n && w.st.hasPending
    requires OwnRow(w.st, d.family, d.user, d.id) && Waiting(w.st, d.family, d.user, d.id)
    ensures Reaches(w, v) && m in v.deletes && n in v.deletes
    ensures v.deletes[n].pc == Done(NotFound, true) && v.deletes[m].pc == Done(CheckUnavailable, true)
    ensures Shown(v.st, d.family, d.user, d.id).Requested?
  {
    Here(w);
    var w1 := ClearsRow(w, w, m, d);
    var w2 := ClearsRow(w, w1, n, d);
    var w3 := Next(w2, Remove(m, Answered));
    var w4 := Next(w3, Remove(n, Answered));
    v := Next(w4, Forget(m, Failed));
    Then(w, w2, Remove(m, Answered));
    Then(w, w3, Remove(n, Answered));
    Then(w, w4, Forget(m, Failed));
  }

  lemma ClearsRow(w: World, u: World, n: nat, d: Delete) returns (v: World)
    requires Reaches(w, u) && n !in u.deletes && OwnRow(u.st, d.family, d.user, d.id)
    ensures Reaches(w, v) && v == World(u.st, u.deletes[n := d.(cleared := true, forgot := false, pc := Removing)])
  {
    var w1 := Next(u, Begin(n, d.family, d.user, d.id));
    var w2 := Next(w1, ReadRow(n, true));
    v := Next(w2, Policy(n, Some(false)));
    Then(w, u, Begin(n, d.family, d.user, d.id));
    Then(w, w1, ReadRow(n, true));
    Then(w, w2, Policy(n, Some(false)));
  }

  /** One delete is enough: if the answer to its row delete is lost and the client tries again, it is answered 404 and
      the scan is shown as requested. */
  lemma LostAnswerLeavesRequested(w: World, n: nat, d: Delete) returns (v: World)
    requires Inv(w) && n !in w.deletes && w.st.hasPending
    requires OwnRow(w.st, d.family, d.user, d.id) && Waiting(w.st, d.family, d.user, d.id)
    ensures Reaches(w, v) && n in v.deletes && v.deletes[n].pc == Done(NotFound, true)
    ensures Shown(v.st, d.family, d.user, d.id).Requested?
  {
    Here(w);
    var w1 := ClearsRow(w, w, n, d);
    Then(w, w1, Remove(n, Retried));
    v := Next(w1, Remove(n, Retried));
  }

  /* ---- Who is shown what ---- */

  /** `GET` shows a scan only to the user and under the family it was issued for, and catalog rows to everybody under
      TLS; it shows the row whenever there is one. */
  lemma ShownToItsUser(st: Stores, f: Family, u: Uuid, id: ScanId)
    requires ScanOk(st, id)
    ensures Shown(st, f, u, id) != Missing ==>
              && id in st.issued && st.issued[id].family == f
              && (st.issued[id].user == u || (f == TlsScan && id in st.rows && st.rows[id].catalog))
    ensures Shown(st, f, u, id) == Requested ==> id in st.pending && st.hasPending && st.issued[id].user == u
    ensures id in st.issued && st.issued[id] == Pending(u, f) ==>
              && (id in st.rows <==> Shown(st, f, u, id) == Detail)
              && (id !in st.rows && st.hasPending ==> (id in st.pending <==> Shown(st, f, u, id) == Requested))
  {
  }

  /** An accepted scan is shown as requested to its user, its result once it is there, a catalog row to everybody. */
  lemma NewScansAreShown(st: Stores, id: ScanId, u: Uuid, f: Family, target: string, v: Uuid)
    requires id !in st.issued && ScanOk(st, id) && st.hasPending
    ensures var accepted := WithScan(st, id, u, f, target);
            && Shown(accepted, f, u, id) == Requested && (v != u ==> Shown(accepted, f, v, id) == Missing)
            && Shown(WithResult(accepted, id), f, u, id) == Detail
            && (v != u ==> Shown(WithResult(accepted, id), f, v, id) == Missing)
    ensures Shown(WithCatalogRow(st, id, u), TlsScan, v, id) == Detail
    ensures Shown(WithCatalogRow(st, id, u), WalletScan, v, id) == Missing
  {
  }
}
