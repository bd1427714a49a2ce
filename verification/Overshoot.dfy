/** Schedules that break the parallel cap, and the exact set of plans for which none exists. */
module Overshoot {
  import opened Domain
  import opened Ledger
  import opened PlanLimits
  import opened QuotaProtocol
  import opened ParallelProtocol

  lemma {:induction false} RunConcat(p: Plans, w: World, a: seq<Step>, b: seq<Step>)
    requires Run(p, w, a) && Run(p, Final(p, w, a), b)
    ensures Run(p, w, a + b) && Final(p, w, a + b) == Final(p, Final(p, w, a), b)
    decreases |a|
  {
    if a == [] {
      assert a + b == b;
    } else {
      assert (a + b)[0] == a[0] && (a + b)[1..] == a[1..] + b;
      RunConcat(p, Next(p, w, a[0]), a[1..], b);
    }
  }

  /** Some run leads from one world to the other. */
  ghost predicate Reaches(p: Plans, w: World, w': World) {
    exists steps :: Run(p, w, steps) && Final(p, w, steps) == w'
  }

  lemma ReachesSelf(p: Plans, w: World)
    ensures Reaches(p, w, w)
  {
    assert Run(p, w, []) && Final(p, w, []) == w;
  }

  lemma ReachesFirst(p: Plans, w: World, s: Step, w': World)
    requires Enabled(w, s) && Reaches(p, Next(p, w, s), w')
    ensures Reaches(p, w, w')
  {
    var rest :| Run(p, Next(p, w, s), rest) && Final(p, Next(p, w, s), rest) == w';
    assert ([s] + rest)[0] == s && ([s] + rest)[1..] == rest;
    assert Run(p, w, [s] + rest) && Final(p, w, [s] + rest) == w';
  }

  lemma ReachesThen(p: Plans, w: World, w1: World, w2: World)
    requires Reaches(p, w, w1) && Reaches(p, w1, w2)
    ensures Reaches(p, w, w2)
  {
    var a :| Run(p, w, a) && Final(p, w, a) == w1;
    var b :| Run(p, w1, b) && Final(p, w1, b) == w2;
    RunConcat(p, w, a, b);
  }

  function Elements(s: seq<ScanId>): set<ScanId> {
    set x | x in s
  }

  lemma ElementsSize(s: seq<ScanId>)
    requires Distinct(s)
    ensures |Elements(s)| == |s|
  {
    if s != [] {
      assert Elements(s) == {s[0]} + Elements(s[1..]);
      ElementsSize(s[1..]);
    }
  }

  /** One row turns an open reservation into a scan in flight and changes nothing else of the pair. */
  lemma OneCreation(p: Plans, w: World, u: Uuid, k: Kind, id: ScanId)
    requires id in OpenIds(w.tables, u, k) && !k.Unsupported?
    ensures Enabled(w, CreateRow(id, RUNNING))
    ensures var w' := Next(p, w, CreateRow(id, RUNNING));
            && w'.txs == w.txs && w'.tables.events == w.tables.events
            && Rows(w'.tables, k).Keys == Rows(w.tables, k).Keys + {id}
            && LedgerIds(w'.tables, u, k) == LedgerIds(w.tables, u, k)
            && ExtraIds(w'.tables, u, k) == ExtraIds(w.tables, u, k)
            && InFlightIds(w'.tables, u, k) == InFlightIds(w.tables, u, k) + {id}
            && OpenIds(w'.tables, u, k) == OpenIds(w.tables, u, k) - {id}
  {
  }

  lemma {:induction false} ManyCreations(p: Plans, w: World, u: Uuid, k: Kind, ids: seq<ScanId>) returns (w': World)
    requires Distinct(ids) && Elements(ids) <= OpenIds(w.tables, u, k) && !k.Unsupported?
    ensures Reaches(p, w, w')
    ensures w'.txs == w.txs && w'.tables.events == w.tables.events
    ensures Rows(w'.tables, k).Keys == Rows(w.tables, k).Keys + Elements(ids)
    ensures LedgerIds(w'.tables, u, k) == LedgerIds(w.tables, u, k)
    ensures ExtraIds(w'.tables, u, k) == ExtraIds(w.tables, u, k)
    ensures InFlightIds(w'.tables, u, k) == InFlightIds(w.tables, u, k) + Elements(ids)
    ensures OpenIds(w'.tables, u, k) == OpenIds(w.tables, u, k) - Elements(ids)
    ensures ids == [] ==> w' == w
    decreases |ids|
  {
    if ids == [] {
      w' := w;
      ReachesSelf(p, w);
    } else {
      assert ids[0] in Elements(ids);
      OneCreation(p, w, u, k, ids[0]);
      var w1 := Next(p, w, CreateRow(ids[0], RUNNING));
      assert Elements(ids) == {ids[0]} + Elements(ids[1..]);
      assert Elements(ids[1..]) <= OpenIds(w1.tables, u, k);
      w' := ManyCreations(p, w1, u, k, ids[1..]);
      ReachesFirst(p, w, CreateRow(ids[0], RUNNING), w');
    }
  }

  /** A reservation from a quiet world up to the in-flight count. */
  lemma Opening(p: Plans, w: World, n: nat, u: Uuid, k: Kind, id: ScanId) returns (w': World)
    requires Quiet(w) && n !in w.txs && !k.Unsupported? && id != NIL_SCAN
    ensures Reaches(p, w, w')
    ensures w' == World(w.tables, w.txs[n := InGap(w.tables, u, k, id)])
  {
    var b, a, l, f := Begin(n, u, k, id), Acquire(n), ReadLedger(n), ReadInFlight(n);
    var w1 := Next(p, w, b);
    var w2 := Next(p, w1, a);
    var w3 := Next(p, w2, l);
    w' := Next(p, w3, f);
    ReachesSelf(p, w');
    ReachesFirst(p, w3, f, w');
    ReachesFirst(p, w2, l, w');
    ReachesFirst(p, w1, a, w');
    ReachesFirst(p, w, b, w');
  }

  function ReadRest(t: Tables, tx: Tx): Tx
    requires tx.phase.Read2?
  {
    var extra, open := |ExtraIds(t, tx.user, tx.kind)|, |OpenIds(t, tx.user, tx.kind)|;
    tx.(phase := Read4(tx.phase.ledger, tx.phase.inFlight, extra, open))
  }

  /** The rest of the reservation. */
  lemma Closing(p: Plans, w: World, n: nat) returns (w': World)
    requires n in w.txs && w.txs[n].phase.Read2?
    ensures Reaches(p, w, w')
    ensures var tx := w.txs[n];
            var granted := Grants(p, ReadRest(w.tables, tx));
            var tables := if granted then Record(w.tables, tx.user, tx.scan, tx.kind) else w.tables;
            w' == World(tables, w.txs[n := tx.(phase := Done(granted))])
  {
    var e, o, c := ReadExtra(n), ReadOpen(n), Commit(n);
    var w1 := Next(p, w, e);
    var w2 := Next(p, w1, o);
    w' := Next(p, w2, c);
    ReachesSelf(p, w');
    ReachesFirst(p, w2, c, w');
    ReachesFirst(p, w1, o, w');
    ReachesFirst(p, w, e, w');
  }

  /* Set arithmetic of the gap: `l` reserved, `f` in flight, `o` open. */

  lemma GapSets(l: set<ScanId>, f: set<ScanId>, o: set<ScanId>, ids: seq<ScanId>)
    requires Distinct(ids) && Elements(ids) <= o <= l
    ensures |o - Elements(ids)| == |o| - |ids|
    ensures f + Elements(ids) + (o - Elements(ids)) == f + o
    ensures l + (f + Elements(ids)) == l + f
  {
    ElementsSize(ids);
    assert o == (o - Elements(ids)) + Elements(ids);
  }

  lemma GapAlgebra(l: set<ScanId>, f: set<ScanId>, o: set<ScanId>, created: set<ScanId>, id: ScanId)
    requires created <= o <= l
    ensures (l + {id}) + (f + created) == l + f + {id}
    ensures (f + created) + (o - created + {id}) == f + o + {id}
    ensures id !in l && id !in f ==>
              && |l + f + {id}| == |l + f| + 1
              && |f + o + {id}| == |f + o| + 1
              && |o - created + {id}| == |o - created| + 1
  {
  }

  /** How the rows of `ids`, created in the gap, show in the id sets. */
  ghost predicate Created(t: Tables, t': Tables, u: Uuid, k: Kind, ids: seq<ScanId>) {
    && t'.events == t.events && Rows(t', k).Keys == Rows(t, k).Keys + Elements(ids)
    && LedgerIds(t', u, k) == LedgerIds(t, u, k) && ExtraIds(t', u, k) == ExtraIds(t, u, k)
    && InFlightIds(t', u, k) == InFlightIds(t, u, k) + Elements(ids)
    && OpenIds(t', u, k) == OpenIds(t, u, k) - Elements(ids)
    && (ids == [] ==> t' == t)
  }

  function InGap(t: Tables, u: Uuid, k: Kind, id: ScanId): Tx {
    Tx(u, k, id, Read2(|LedgerIds(t, u, k)|, |InFlightIds(t, u, k)|))
  }

  lemma OverwriteTx(txs: map<nat, Tx>, n: nat, a: Tx, b: Tx)
    ensures txs[n := a][n := b] == txs[n := b]
  {
  }

  lemma UpToTheGap(p: Plans, w: World, n: nat, u: Uuid, k: Kind, id: ScanId, ids: seq<ScanId>) returns (w': World)
    requires Quiet(w) && n !in w.txs && !k.Unsupported? && id != NIL_SCAN
    requires Distinct(ids) && Elements(ids) <= OpenIds(w.tables, u, k)
    ensures Reaches(p, w, w') && Created(w.tables, w'.tables, u, k, ids)
    ensures w'.txs == w.txs[n := InGap(w.tables, u, k, id)]
  {
    var w1 := Opening(p, w, n, u, k, id);
    w' := ManyCreations(p, w1, u, k, ids);
    ReachesThen(p, w, w1, w');
  }

  /** A whole reservation during which the rows of `ids` appear between the two counts;
      `t` are the tables just before it is inserted. */
  lemma GapRun(p: Plans, w: World, n: nat, u: Uuid, k: Kind, id: ScanId, ids: seq<ScanId>)
    returns (t: Tables, w': World)
    requires Quiet(w) && n !in w.txs && !k.Unsupported? && id != NIL_SCAN
    requires Distinct(ids) && Elements(ids) <= OpenIds(w.tables, u, k)
    ensures Reaches(p, w, w') && Created(w.tables, t, u, k, ids)
    ensures var granted := Grants(p, ReadRest(t, InGap(w.tables, u, k, id)));
            w' == World(if granted then Record(t, u, id, k) else t, w.txs[n := Tx(u, k, id, Done(granted))])
  {
    var w1 := UpToTheGap(p, w, n, u, k, id, ids);
    w' := Closing(p, w1, n);
    ReachesThen(p, w, w1, w');
    t := w1.tables;
    OverwriteTx(w.txs, n, InGap(w.tables, u, k, id), w'.txs[n]);
  }

  /** Undisturbed, the four reads and the commit do what `LedgerRepository.ReserveScanUsage` promises. */
  lemma UndisturbedIsAtomic(p: Plans, w: World, n: nat, u: Uuid, k: Kind, id: ScanId) returns (w': World)
    requires Quiet(w) && n !in w.txs && !k.Unsupported? && id != NIL_SCAN
    ensures Reaches(p, w, w')
    ensures var limit, cap := p(u, k), ParallelCap(p(u, k));
            w'.tables ==
            if 0 < limit <= |UsedIds(w.tables, u, k)| || cap <= |ParallelIds(w.tables, u, k)| then w.tables
            else Record(w.tables, u, id, k)
  {
    var t;
    t, w' := GapRun(p, w, n, u, k, id, []);
    SnapshotIsExact(w.tables, u, k);
  }

  lemma GapGrantsAt(p: Plans, t: Tables, t': Tables, u: Uuid, k: Kind, id: ScanId, ids: seq<ScanId>)
    requires Distinct(ids) && Elements(ids) <= OpenIds(t, u, k) && Created(t, t', u, k, ids)
    requires 0 < p(u, k) ==> |UsedIds(t, u, k)| < p(u, k)
    requires |ParallelIds(t, u, k)| - |ids| < ParallelCap(p(u, k))
    ensures Grants(p, ReadRest(t', InGap(t, u, k, id)))
  {
    SnapshotIsExact(t, u, k);
    assert |OpenIds(t', u, k)| == |OpenIds(t, u, k)| - |ids| by {
      GapSets(LedgerIds(t, u, k), InFlightIds(t, u, k), OpenIds(t, u, k), ids);
    }
  }

  /** Whenever quota is left and enough open reservations get their rows inside the gap, the reservation is
      granted and the parallel set grows by one, whatever its size was. */
  lemma GapGrants(p: Plans, w: World, n: nat, u: Uuid, k: Kind, id: ScanId, ids: seq<ScanId>)
    returns (w': World)
    requires Quiet(w) && n !in w.txs && !k.Unsupported?
    requires id != NIL_SCAN && id !in w.tables.events && id !in Rows(w.tables, k)
    requires Distinct(ids) && Elements(ids) <= OpenIds(w.tables, u, k)
    requires 0 < p(u, k) ==> |UsedIds(w.tables, u, k)| < p(u, k)
    requires |ParallelIds(w.tables, u, k)| - |ids| < ParallelCap(p(u, k))
    ensures Reaches(p, w, w')
    ensures w'.txs == w.txs[n := Tx(u, k, id, Done(true))]
    ensures w'.tables.events == w.tables.events[id := Usage(u, k)]
    ensures Rows(w'.tables, k).Keys == Rows(w.tables, k).Keys + Elements(ids)
    ensures |ParallelIds(w'.tables, u, k)| == |ParallelIds(w.tables, u, k)| + 1
    ensures |UsedIds(w'.tables, u, k)| == |UsedIds(w.tables, u, k)| + 1
    ensures |OpenIds(w'.tables, u, k)| == |OpenIds(w.tables, u, k)| - |ids| + 1
  {
    var t;
    t, w' := GapRun(p, w, n, u, k, id, ids);
    GapGrantsAt(p, w.tables, t, u, k, id, ids);
    RecordedAfterGap(w.tables, t, u, k, id, ids);
  }

  lemma RecordedAfterGap(t: Tables, t': Tables, u: Uuid, k: Kind, id: ScanId, ids: seq<ScanId>)
    requires id !in t.events && id !in Rows(t, k)
    requires Distinct(ids) && Elements(ids) <= OpenIds(t, u, k) && Created(t, t', u, k, ids)
    ensures var r := Record(t', u, id, k);
            && r.events == t.events[id := Usage(u, k)] && Rows(r, k) == Rows(t', k)
            && |ParallelIds(r, u, k)| == |ParallelIds(t, u, k)| + 1
            && |UsedIds(r, u, k)| == |UsedIds(t, u, k)| + 1
            && |OpenIds(r, u, k)| == |OpenIds(t, u, k)| - |ids| + 1
  {
    RecordedIds(t', u, k, id);
    assert id !in UsedIds(t, u, k) && id !in ParallelIds(t, u, k);
    GapSets(LedgerIds(t, u, k), InFlightIds(t, u, k), OpenIds(t, u, k), ids);
    GapAlgebra(LedgerIds(t, u, k), InFlightIds(t, u, k), OpenIds(t, u, k), Elements(ids), id);
  }

  lemma RecordedIds(t: Tables, u: Uuid, k: Kind, id: ScanId)
    requires id !in t.events && id !in Rows(t, k)
    ensures var t' := Record(t, u, id, k);
            && Rows(t', k) == Rows(t, k)
            && InFlightIds(t', u, k) == InFlightIds(t, u, k)
            && OpenIds(t', u, k) == OpenIds(t, u, k) + {id}
            && LedgerIds(t', u, k) == LedgerIds(t, u, k) + {id}
  {
    var t' := Record(t, u, id, k);
    assert Rows(t', k) == Rows(t, k);
    assert InFlightIds(t', u, k) == InFlightIds(t, u, k);
    assert LedgerIds(t', u, k) == LedgerIds(t, u, k) + {id};
  }

  /* ---- Which plans keep the cap ---- */

  function Empty(): World {
    World(Tables(map[], map[], map[]), map[])
  }

  lemma EmptyCounts(u: Uuid, k: Kind)
    ensures var t := Empty().tables;
            |OpenIds(t, u, k)| == |UsedIds(t, u, k)| == |ParallelIds(t, u, k)| == 0
  {
    var t := Empty().tables;
    assert LedgerIds(t, u, k) == {} && InFlightIds(t, u, k) == {} && OpenIds(t, u, k) == {};
    assert UsedIds(t, u, k) == {} && ParallelIds(t, u, k) == {};
  }

  /** At most so many reservations were made, all are answered, and no row exists. */
  ghost predicate Rowless(w: World, k: Kind, n: nat) {
    && Quiet(w) && Rows(w.tables, k).Keys == {}
    && (forall m :: m in w.txs ==> m < n) && (forall id :: id in w.tables.events ==> 0 < id <= n)
  }

  /** So many reservations of the pair have gone through, none of which has a row yet. */
  ghost predicate AllOpen(w: World, u: Uuid, k: Kind, n: nat) {
    Rowless(w, k, n) && |OpenIds(w.tables, u, k)| == |UsedIds(w.tables, u, k)| == |ParallelIds(w.tables, u, k)| == n
  }

  lemma OneMoreRowless(w: World, w': World, u: Uuid, k: Kind, n: nat)
    requires Rowless(w, k, n) && w'.txs == w.txs[n := Tx(u, k, n + 1, Done(true))]
    requires w'.tables.events == w.tables.events[n + 1 := Usage(u, k)] && Rows(w'.tables, k).Keys == {}
    ensures Rowless(w', k, n + 1)
  {
  }

  lemma OneMoreOpen(p: Plans, w: World, u: Uuid, k: Kind, n: nat) returns (w': World)
    requires AllOpen(w, u, k, n) && !k.Unsupported? && n < ParallelCap(p(u, k)) && (0 < p(u, k) ==> n < p(u, k))
    ensures Reaches(p, w, w') && AllOpen(w', u, k, n + 1)
  {
    var none: seq<ScanId> := [];
    assert Elements(none) == {};
    assert n + 1 !in Rows(w.tables, k) && n + 1 !in w.tables.events && n !in w.txs;
    w' := GapGrants(p, w, n, u, k, n + 1, none);
    OneMoreRowless(w, w', u, k, n);
  }

  /** Three open reservations at the cap are reached from an empty system. */
  lemma ThreeOpen(p: Plans, u: Uuid, k: Kind) returns (w: World)
    requires !k.Unsupported? && !(0 < p(u, k) <= 3)
    ensures Reaches(p, Empty(), w) && AllOpen(w, u, k, 3) && ParallelCap(p(u, k)) == 3
  {
    EmptyCounts(u, k);
    var w1 := OneMoreOpen(p, Empty(), u, k, 0);
    var w2 := OneMoreOpen(p, w1, u, k, 1);
    w := OneMoreOpen(p, w2, u, k, 2);
    ReachesThen(p, Empty(), w1, w2);
    ReachesThen(p, Empty(), w2, w);
  }

  predicate Unused(w: World, n: nat, k: Kind, id: ScanId) {
    n !in w.txs && id != NIL_SCAN && id !in w.tables.events && id !in Rows(w.tables, k)
  }

  /** Starting with three open reservations and nothing in flight, one row created in a first gap and two in a
      second let a fifth scan in: the bound of `OvershootIsBounded` is reached. */
  lemma FifthScan(p: Plans, w: World, u: Uuid, k: Kind, m: nat, x: ScanId, n: nat, y: ScanId) returns (w': World)
    requires Quiet(w) && !k.Unsupported? && Unused(w, m, k, x) && Unused(w, n, k, y) && m != n && x != y
    requires ParallelCap(p(u, k)) == 3 && (0 < p(u, k) ==> |UsedIds(w.tables, u, k)| + 1 < p(u, k))
    requires |OpenIds(w.tables, u, k)| == |ParallelIds(w.tables, u, k)| == 3
    ensures Reaches(p, w, w') && |ParallelIds(w'.tables, u, k)| == 5
    ensures 2 * 5 <= 3 * ParallelCap(p(u, k)) + 2 < 2 * 6
  {
    var w1 := FourthScan(p, w, u, k, m, x, n, y);
    var b, c := TwoOf(OpenIds(w1.tables, u, k));
    assert Elements([b, c]) == {b, c};
    w' := GapGrants(p, w1, n, u, k, y, [b, c]);
    ReachesThen(p, w, w1, w');
  }

  lemma FourthScan(p: Plans, w: World, u: Uuid, k: Kind, m: nat, x: ScanId, n: nat, y: ScanId) returns (w': World)
    requires Quiet(w) && !k.Unsupported? && Unused(w, m, k, x) && Unused(w, n, k, y) && m != n && x != y
    requires ParallelCap(p(u, k)) == 3 && (0 < p(u, k) ==> |UsedIds(w.tables, u, k)| + 1 < p(u, k))
    requires |OpenIds(w.tables, u, k)| == |ParallelIds(w.tables, u, k)| == 3
    ensures Reaches(p, w, w') && Quiet(w') && Unused(w', n, k, y)
    ensures |OpenIds(w'.tables, u, k)| == 3 && |ParallelIds(w'.tables, u, k)| == 4
    ensures |UsedIds(w'.tables, u, k)| == |UsedIds(w.tables, u, k)| + 1
  {
    var a :| a in OpenIds(w.tables, u, k);
    w' := GapGrants(p, w, m, u, k, x, [a]);
    assert Elements([a]) == {a} && a in w.tables.events;
  }

  lemma TwoOf(s: set<ScanId>) returns (b: ScanId, c: ScanId)
    requires |s| >= 2
    ensures b in s && c in s && b != c
  {
    b :| b in s;
    assert |s - {b}| >= 1;
    c :| c in s - {b};
  }

  /** The plan keeps the cap in every run that starts with no reservation under way, within quota and cap. */
  ghost predicate AlwaysWithinCap(p: Plans, u: Uuid, k: Kind) {
    forall w: World, w': World ::
      Quiet(w) && Reaches(p, w, w')
      && |ParallelIds(w.tables, u, k)| <= ParallelCap(p(u, k))
      && (0 < p(u, k) ==> |UsedIds(w.tables, u, k)| <= p(u, k))
      ==> |ParallelIds(w'.tables, u, k)| <= ParallelCap(p(u, k))
  }

  /** A small plan cannot break the cap, because the quota, which no schedule breaks, is already as tight. */
  lemma SmallPlansKeepTheCap(p: Plans, w: World, w': World, u: Uuid, k: Kind)
    requires 0 < p(u, k) <= 3 && Quiet(w) && Reaches(p, w, w') && |UsedIds(w.tables, u, k)| <= p(u, k)
    ensures |ParallelIds(w'.tables, u, k)| <= ParallelCap(p(u, k))
  {
    var steps :| Run(p, w, steps) && Final(p, w, steps) == w';
    QuotaIsNeverExceeded(p, w, steps, u, k, p(u, k));
    SubsetSize(ParallelIds(w'.tables, u, k), UsedIds(w'.tables, u, k));
  }

  /** The same for runs of a system that starts empty. */
  ghost predicate WithinCapFromEmpty(p: Plans, u: Uuid, k: Kind) {
    forall w: World :: Reaches(p, Empty(), w) ==> |ParallelIds(w.tables, u, k)| <= ParallelCap(p(u, k))
  }

  lemma FourthFromEmpty(p: Plans, u: Uuid, k: Kind) returns (w: World)
    requires !k.Unsupported? && !(0 < p(u, k) <= 3)
    ensures Reaches(p, Empty(), w) && |ParallelIds(w.tables, u, k)| == 4 > ParallelCap(p(u, k))
  {
    var w1 := ThreeOpen(p, u, k);
    var a :| a in OpenIds(w1.tables, u, k);
    assert Elements([a]) == {a};
    w := GapGrants(p, w1, 3, u, k, 4, [a]);
    ReachesThen(p, Empty(), w1, w);
  }

  /** From an empty system five scans in parallel are reached, for every plan of five or more and unlimited ones. */
  lemma FifthFromEmpty(p: Plans, u: Uuid, k: Kind) returns (w: World)
    requires !k.Unsupported? && !(0 < p(u, k) <= 4)
    ensures Reaches(p, Empty(), w) && |ParallelIds(w.tables, u, k)| == 5
  {
    var w1 := ThreeOpen(p, u, k);
    w := FifthScan(p, w1, u, k, 3, 4, 4, 5);
    ReachesThen(p, Empty(), w1, w);
  }

  /** Exactly the limits 1, 2 and 3 guarantee the cap; any larger or unlimited plan has a run that breaks it, from an
      empty system too. */
  lemma CapHoldsIff(p: Plans, u: Uuid, k: Kind)
    requires !k.Unsupported?
    ensures AlwaysWithinCap(p, u, k) <==> 0 < p(u, k) <= 3
    ensures WithinCapFromEmpty(p, u, k) <==> 0 < p(u, k) <= 3
  {
    EmptyCounts(u, k);
    if 0 < p(u, k) <= 3 {
      forall w: World, w': World | Quiet(w) && Reaches(p, w, w') && |UsedIds(w.tables, u, k)| <= p(u, k)
        ensures |ParallelIds(w'.tables, u, k)| <= ParallelCap(p(u, k))
      {
        SmallPlansKeepTheCap(p, w, w', u, k);
      }
    } else {
      var w' := FourthFromEmpty(p, u, k);
      assert Quiet(Empty()) && Reaches(p, Empty(), w');
    }
  }
}
