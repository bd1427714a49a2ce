/** `ScanRequestAbandoner`: which reserved scans have left the work queue without a result, and are reported
    with scan.failed so that their credit comes back (`internal/service/scan_request_abandon.go`). */
module Abandoner {
  import opened Domain
  import opened Address

  datatype OpenRow = OpenRow(scan: ScanId, user: Uuid, kind: Kind)

  /** One `Due` call: the time, the open reservations and the scan ids still in the work queue. */
  datatype Call = Call(now: int, open: seq<OpenRow>, queued: set<ScanId>)

  datatype Watch = Watch(missing: map<ScanId, int>, sent: set<ScanId>)

  const EMPTY: Watch := Watch(map[], {})

  function Ids(rows: seq<OpenRow>): set<ScanId> {
    set i | 0 <= i < |rows| :: rows[i].scan
  }

  /** Open and no longer in the queue. */
  predicate Missing(c: Call, id: ScanId) {
    id in Ids(c.open) && id !in c.queued
  }

  predicate IsDue(w: Watch, grace: int, c: Call, id: ScanId) {
    id !in w.sent && id !in c.queued && id in w.missing && c.now - w.missing[id] >= grace
  }

  function DueRows(w: Watch, grace: int, c: Call, rows: seq<OpenRow>): (due: seq<OpenRow>)
    ensures forall r :: r in due <==> r in rows && IsDue(w, grace, c, r.scan)
  {
    if rows == [] then []
    else
      var last := rows[|rows| - 1];
      DueRows(w, grace, c, rows[..|rows| - 1]) + if IsDue(w, grace, c, last.scan) then [last] else []
  }

  /** Who is watched after a call. A reported scan keeps its entry even when it is back in the queue. */
  predicate Watched(w: Watch, c: Call, id: ScanId) {
    id in Ids(c.open) && if id in w.sent then id in w.missing else id !in c.queued
  }

  function AfterCall(w: Watch, c: Call): Watch {
    Watch(map id | id in Ids(c.open) && Watched(w, c, id) :: if id in w.missing then w.missing[id] else c.now,
          set id | id in w.sent && (id in Ids(c.open) || id !in w.missing))
  }

  function AfterMark(w: Watch, id: ScanId): Watch {
    w.(sent := w.sent + {id})
  }

  datatype Event = Called(call: Call) | Marked(id: ScanId)

  function Replay(h: seq<Event>): Watch {
    if h == [] then EMPTY
    else
      var before := Replay(h[..|h| - 1]);
      match h[|h| - 1]
      case Called(c) => AfterCall(before, c)
      case Marked(id) => AfterMark(before, id)
  }

  /* ---- The two facts of a history that decide ---- */

  /** From the call at `j` on, every call saw the scan open and missing from the queue. */
  ghost predicate Streak(h: seq<Event>, j: int, id: ScanId) {
    && 0 <= j < |h| && h[j].Called?
    && forall i :: j <= i < |h| && h[i].Called? ==> Missing(h[i].call, id)
  }

  /** Reported, and seen open by every call since. */
  ghost predicate Reported(h: seq<Event>, id: ScanId) {
    exists m :: 0 <= m < |h| && h[m] == Marked(id) && OpenSince(h, m, id)
  }

  ghost predicate OpenSince(h: seq<Event>, m: int, id: ScanId) {
    forall i :: 0 <= m < i < |h| && h[i].Called? ==> id in Ids(h[i].call.open)
  }

  /** The latest call returned this scan. */
  ghost predicate Returned(grace: int, h: seq<Event>, id: ScanId) {
    h != [] &&
    match h[|h| - 1]
    case Called(c) => exists r :: r in DueRows(Replay(h[..|h| - 1]), grace, c, c.open) && r.scan == id
    case Marked(_) => Returned(grace, h[..|h| - 1], id)
  }

  /** Only scans returned by the latest call are marked. */
  ghost predicate Disciplined(grace: int, h: seq<Event>) {
    h != [] ==>
      && Disciplined(grace, h[..|h| - 1])
      && (h[|h| - 1].Marked? ==> Returned(grace, h[..|h| - 1], h[|h| - 1].id))
  }

  ghost predicate TimeOrdered(h: seq<Event>) {
    forall i, j :: 0 <= i < j < |h| && h[i].Called? && h[j].Called? ==> h[i].call.now <= h[j].call.now
  }

  /* ---- The state is what the history says ---- */

  lemma {:induction false} ReturnedIsWatched(grace: int, h: seq<Event>, id: ScanId)
    requires Returned(grace, h, id)
    ensures id in Replay(h).missing
  {
    if h[|h| - 1].Marked? {
      ReturnedIsWatched(grace, h[..|h| - 1], id);
    }
  }

  lemma StreakExtends(h: seq<Event>, e: Event, j: int, id: ScanId)
    ensures e.Marked? ==> (Streak(h + [e], j, id) <==> Streak(h, j, id))
    ensures e.Called? && j != |h| ==> (Streak(h + [e], j, id) <==> Streak(h, j, id) && Missing(e.call, id))
    ensures e.Called? ==> (Streak(h + [e], |h|, id) <==> Missing(e.call, id))
  {
    var g := h + [e];
    assert forall i :: 0 <= i < |h| ==> g[i] == h[i];
    assert g[|h|] == e;
  }

  lemma ReportedExtends(h: seq<Event>, e: Event, id: ScanId)
    ensures e.Marked? ==> (Reported(h + [e], id) <==> Reported(h, id) || e.id == id)
    ensures e.Called? ==> (Reported(h + [e], id) <==> Reported(h, id) && id in Ids(e.call.open))
  {
    var g := h + [e];
    assert forall i :: 0 <= i < |h| ==> g[i] == h[i];
    assert g[|h|] == e;
    forall m | 0 <= m < |h|
      ensures OpenSince(g, m, id) <==> OpenSince(h, m, id) && (e.Called? ==> id in Ids(e.call.open))
    {
    }
    if e == Marked(id) {
      assert OpenSince(g, |h|, id);
    }
    if Reported(h, id) && (e.Called? ==> id in Ids(e.call.open)) {
      var m :| 0 <= m < |h| && h[m] == Marked(id) && OpenSince(h, m, id);
      assert g[m] == Marked(id) && OpenSince(g, m, id);
    }
    if Reported(g, id) {
      var m :| 0 <= m < |g| && g[m] == Marked(id) && OpenSince(g, m, id);
      assert m < |h| ==> h[m] == Marked(id) && OpenSince(h, m, id);
    }
  }

  /** `missing[id]` is the time of the first call of the running streak. */
  ghost predicate SinceFirst(h: seq<Event>, w: Watch, id: ScanId)
    requires id in w.missing
  {
    exists j :: Streak(h, j, id) && w.missing[id] == h[j].call.now && forall i :: Streak(h, i, id) ==> j <= i
  }

  ghost predicate Explains(h: seq<Event>, w: Watch, id: ScanId) {
    && (id in w.sent <==> Reported(h, id))
    && (id in w.sent ==> id in w.missing)
    && (id !in w.sent ==> (id in w.missing <==> exists j :: Streak(h, j, id)))
    && (id !in w.sent && id in w.missing ==> SinceFirst(h, w, id))
  }

  lemma CallExplained(h: seq<Event>, w: Watch, c: Call, id: ScanId)
    requires Explains(h, w, id)
    ensures Explains(h + [Called(c)], AfterCall(w, c), id)
  {
    var g, w' := h + [Called(c)], AfterCall(w, c);
    ReportedExtends(h, Called(c), id);
    forall j { StreakExtends(h, Called(c), j, id); }
    if id !in w'.sent && Missing(c, id) {
      assert id !in w.sent;
      if id in w.missing {
        var j :| Streak(h, j, id) && w.missing[id] == h[j].call.now && forall i :: Streak(h, i, id) ==> j <= i;
        assert Streak(g, j, id) && g[j] == h[j];
      } else {
        assert Streak(g, |h|, id) && g[|h|].call.now == c.now;
        assert forall i :: Streak(g, i, id) ==> |h| <= i;
      }
    }
  }

  lemma MarkExplained(h: seq<Event>, w: Watch, x: ScanId, id: ScanId)
    requires Explains(h, w, id) && x in w.missing
    ensures Explains(h + [Marked(x)], AfterMark(w, x), id)
  {
    var g := h + [Marked(x)];
    ReportedExtends(h, Marked(x), id);
    forall j { StreakExtends(h, Marked(x), j, id); }
    if id !in AfterMark(w, x).sent && id in w.missing {
      var j :| Streak(h, j, id) && w.missing[id] == h[j].call.now && forall i :: Streak(h, i, id) ==> j <= i;
      assert Streak(g, j, id) && g[j] == h[j];
    }
  }

  lemma {:induction false} HistoryExplains(grace: int, h: seq<Event>, id: ScanId)
    requires Disciplined(grace, h)
    ensures Explains(h, Replay(h), id)
  {
    if h != [] {
      var init := h[..|h| - 1];
      HistoryExplains(grace, init, id);
      assert h == init + [h[|h| - 1]];
      match h[|h| - 1]
      case Called(c) => CallExplained(init, Replay(init), c, id);
      case Marked(x) =>
        ReturnedIsWatched(grace, init, x);
        MarkExplained(init, Replay(init), x, id);
    }
  }

  /** A scan is missing at a call exactly if it was listed as open and its message was not in the queue; so what is
      queued or not open is never due. */
  lemma MissingMeans(w: Watch, grace: int, c: Call, id: ScanId)
    ensures Missing(c, id) <==> id !in c.queued && exists i :: 0 <= i < |c.open| && c.open[i].scan == id
    ensures forall r :: r in DueRows(w, grace, c, c.open) ==> r in c.open && r.scan !in c.queued && r.scan !in w.sent
  {
  }

  /** With time in order, the earliest call of a streak is the oldest. */
  lemma EarliestIsOldest(h: seq<Event>, c: Call, j: int, i: int)
    requires TimeOrdered(h + [Called(c)]) && 0 <= j <= i < |h| && h[j].Called? && h[i].Called?
    ensures h[j].call.now <= h[i].call.now
  {
    var g := h + [Called(c)];
    assert g[i] == h[i] && g[j] == h[j];
  }

  /** A watched scan has been missing for the grace exactly if some streak is that old. */
  lemma LongEnough(grace: int, h: seq<Event>, c: Call, w: Watch, id: ScanId)
    requires Explains(h, w, id) && TimeOrdered(h + [Called(c)]) && id !in w.sent && id in w.missing
    ensures c.now - w.missing[id] >= grace <==> exists j :: Streak(h, j, id) && c.now - h[j].call.now >= grace
  {
    var j :| Streak(h, j, id) && w.missing[id] == h[j].call.now && forall i :: Streak(h, i, id) ==> j <= i;
    forall i | Streak(h, i, id) ensures h[j].call.now <= h[i].call.now {
      EarliestIsOldest(h, c, j, i);
    }
  }

  /** A call returns a scan exactly when it is open and missing, has not been reported while open, and was
      already open and missing at a call at least the grace period ago and at every call since. */
  lemma DueExactly(grace: int, h: seq<Event>, c: Call, r: OpenRow)
    requires 0 < grace && Disciplined(grace, h) && TimeOrdered(h + [Called(c)]) && r in c.open
    ensures r in DueRows(Replay(h), grace, c, c.open) <==>
            && Missing(c, r.scan) && !Reported(h, r.scan)
            && exists j :: Streak(h, j, r.scan) && c.now - h[j].call.now >= grace
  {
    var id, w := r.scan, Replay(h);
    HistoryExplains(grace, h, id);
    assert id in Ids(c.open);
    if id !in w.sent && id in w.missing {
      LongEnough(grace, h, c, w, id);
    }
  }

  /** The maps stay bounded: after a call both only hold open reservations. */
  lemma StateIsBounded(grace: int, h: seq<Event>, c: Call)
    requires Disciplined(grace, h)
    ensures var w := Replay(h + [Called(c)]); w.sent <= w.missing.Keys <= Ids(c.open)
  {
    assert (h + [Called(c)])[..|h|] == h;
    forall id | id in Replay(h).sent
      ensures id in Replay(h).missing
    {
      HistoryExplains(grace, h, id);
    }
  }

  /** No scan is lost: one that was due and not marked is due again at the next call that finds it open and missing. */
  lemma UnsentStaysDue(grace: int, w: Watch, c: Call, marked: set<ScanId>, next: Call, id: ScanId)
    requires id in Ids(c.open) && IsDue(w, grace, c, id) && id !in marked && c.now <= next.now && Missing(next, id)
    ensures IsDue(Watch(AfterCall(w, c).missing, AfterCall(w, c).sent + marked), grace, next, id)
  {
  }

  /* ---- Publishing ---- */

  /** What the pending store answers about a scan's wallet address. */
  datatype PendingAnswer = Unavailable | NoRecord | Found(address: string)

  datatype Published = Sent | Skipped | Failed

  predicate Addressable(r: OpenRow, p: PendingAnswer) {
    r.kind.Endpoint? || (p.Found? && p.address != "" && ValidateAndNormalize(p.address).Ok?)
  }

  /** `publishAbandonedScan`: an endpoint scan needs no address; a wallet scan without a usable pending address is
      skipped, whether or not the broker would have taken the message. */
  function PublishAbandonedScan(r: OpenRow, p: PendingAnswer, accepted: bool): (o: Published)
    ensures o.Sent? <==> Addressable(r, p) && accepted
    ensures o.Failed? <==> Addressable(r, p) && !accepted
    ensures r.kind == Endpoint ==> o == if accepted then Sent else Failed
    ensures r.kind != Endpoint && !p.Found? ==> o == Skipped
    ensures r.kind != Endpoint && p.Found? ==>
              o == if ValidateAndNormalize(p.address).Err? then Skipped else if accepted then Sent else Failed
  {
    if r.kind.Endpoint? then
      if accepted then Sent else Failed
    else
      match p
      case Unavailable => Skipped
      case NoRecord => Skipped
      case Found(address) =>
        if address == "" || ValidateAndNormalize(address).Err? then Skipped
        else if accepted then Sent else Failed
  }

  /** What the pending store answers about each scan, and whether the broker takes the message about a row. */
  datatype Services = Services(pending: ScanId -> PendingAnswer, takes: OpenRow -> bool)

  function Outcome(net: Services, r: OpenRow): Published {
    PublishAbandonedScan(r, net.pending(r.scan), net.takes(r))
  }

  /** The rows published by one pass, in order, and whether it stopped at a failure. */
  function Pass(due: seq<OpenRow>, net: Services): (seq<OpenRow>, bool) {
    if due == [] then ([], false)
    else
      match Outcome(net, due[0])
      case Failed => ([], true)
      case Sent => ([due[0]] + Pass(due[1..], net).0, Pass(due[1..], net).1)
      case Skipped => Pass(due[1..], net)
  }

  /** A pass reports only rows it can address, and unless it stopped at a failure it reports all of those. */
  lemma {:induction false} PassReports(due: seq<OpenRow>, net: Services, r: OpenRow)
    ensures r in Pass(due, net).0 ==> r in due && Addressable(r, net.pending(r.scan)) && net.takes(r)
    ensures r in due && Addressable(r, net.pending(r.scan)) && !Pass(due, net).1 ==> r in Pass(due, net).0
    ensures Pass(due, net).1 <==> exists i :: 0 <= i < |due| && Outcome(net, due[i]).Failed?
  {
    if due != [] {
      PassReports(due[1..], net, r);
      assert due == [due[0]] + due[1..];
      if Pass(due[1..], net).1 {
        var i :| 0 <= i < |due| - 1 && Outcome(net, due[1..][i]).Failed?;
        assert Outcome(net, due[i + 1]).Failed?;
      }
      if i :| 0 < i < |due| && Outcome(net, due[i]).Failed? {
        assert Outcome(net, due[1..][i - 1]).Failed?;
      }
    }
  }

  function Marks(rows: seq<OpenRow>): seq<Event> {
    seq(|rows|, i requires 0 <= i < |rows| => Marked(rows[i].scan))
  }

  lemma ReturnedStays(grace: int, h: seq<Event>, x: ScanId, id: ScanId)
    requires Returned(grace, h, id)
    ensures Returned(grace, h + [Marked(x)], id)
  {
    assert (h + [Marked(x)])[..|h|] == h;
  }

  const DEFAULT_GRACE := 120_000_000_000

  class ScanRequestAbandoner {
    const grace: int
    var missingSince: map<ScanId, int>
    var sent: set<ScanId>
    ghost var history: seq<Event>

    ghost predicate Valid()
      reads this
    {
      0 < grace && Replay(history) == Watch(missingSince, sent)
    }

    constructor (g: int)
      ensures Valid() && history == []
      ensures grace == if g <= 0 then 120_000_000_000 else g
    {
      grace := if g <= 0 then DEFAULT_GRACE else g;
      missingSince, sent, history := map[], {}, [];
    }

    method Due(now: int, open: seq<OpenRow>, queued: set<ScanId>) returns (due: seq<OpenRow>)
      requires Valid()
      modifies this
      ensures Valid() && history == old(history) + [Called(Call(now, open, queued))]
      ensures due == DueRows(Replay(old(history)), grace, Call(now, open, queued), open)
    {
      ghost var w, c := Watch(missingSince, sent), Call(now, open, queued);
      var seen;
      due, seen := ScanOpen(now, open, queued, w);
      ScannedThenDropped(missingSince, w, c);
      DropUnseen(seen);
      history := history + [Called(c)];
      assert history[..|history| - 1] == old(history);
    }

    /** The first loop of `Due`: start, keep or stop watching each open scan. */
    method ScanOpen(now: int, open: seq<OpenRow>, queued: set<ScanId>, ghost w: Watch)
      returns (due: seq<OpenRow>, seen: set<ScanId>)
      requires 0 < grace && w == Watch(missingSince, sent)
      modifies this`missingSince
      ensures seen == Ids(open) && PartlyScanned(missingSince, w, Call(now, open, queued), seen)
      ensures due == DueRows(w, grace, Call(now, open, queued), open)
    {
      ghost var c := Call(now, open, queued);
      seen, due := {}, [];
      var i := 0;
      while i < |open|
        invariant 0 <= i <= |open| && seen == Ids(open[..i])
        invariant PartlyScanned(missingSince, w, c, seen)
        invariant due == DueRows(w, grace, c, open[..i])
      {
        var row := open[i];
        assert open[..i + 1] == open[..i] + [row];
        IdsOfPrefix(open[..i], row);
        DueRowsGrow(w, grace, c, open[..i], row);
        ScanOne(missingSince, w, c, seen, row.scan);
        seen := seen + {row.scan};
        if row.scan !in sent {
          if row.scan in queued {
            missingSince := missingSince - {row.scan};
          } else if row.scan !in missingSince {
            missingSince := missingSince[row.scan := now];
          } else if now - missingSince[row.scan] >= grace {
            due := due + [row];
          }
        }
        i := i + 1;
      }
      assert open[..i] == open;
    }

    /** The second loop of `Due`: forget watched scans that are no longer open. */
    method DropUnseen(seen: set<ScanId>)
      modifies this`missingSince, this`sent
      ensures missingSince == map id | id in old(missingSince) && id in seen :: old(missingSince)[id]
      ensures sent == old(sent) - (old(missingSince).Keys - seen)
    {
      var todo := missingSince.Keys;
      while todo != {}
        invariant todo <= missingSince.Keys <= old(missingSince).Keys
        invariant forall id :: id in old(missingSince).Keys - todo ==> (id in missingSince <==> id in seen)
        invariant forall id :: id in missingSince ==> missingSince[id] == old(missingSince)[id]
        invariant sent == old(sent) - (old(missingSince).Keys - todo - seen)
        decreases todo
      {
        var id :| id in todo;
        todo := todo - {id};
        if id !in seen {
          missingSince := missingSince - {id};
          sent := sent - {id};
        }
      }
    }

    method MarkSent(id: ScanId)
      requires Valid()
      modifies this
      ensures Valid() && history == old(history) + [Marked(id)]
      ensures sent == old(sent) + {id} && missingSince == old(missingSince)
    {
      sent := sent + {id};
      history := history + [Marked(id)];
      assert history[..|history| - 1] == old(history);
    }

    /** One pass. `lists` is absent when the queue or the ledger could not be listed. */
    method PublishMissing(now: int, lists: Option<(seq<OpenRow>, set<ScanId>)>, net: Services)
      returns (published: seq<OpenRow>, failed: bool)
      requires Valid() && Disciplined(grace, history)
      modifies this
      ensures Valid() && Disciplined(grace, history)
      ensures lists.None? ==> failed && published == [] && history == old(history)
      ensures lists.Some? ==>
                var c := Call(now, lists.value.0, lists.value.1);
                && (published, failed) == Pass(DueRows(Replay(old(history)), grace, c, c.open), net)
                && history == old(history) + [Called(c)] + Marks(published)
    {
      if lists.None? {
        return [], true;
      }
      ghost var c := Call(now, lists.value.0, lists.value.1);
      ghost var h := history + [Called(c)];
      var due := Due(now, lists.value.0, lists.value.1);
      assert h[..|h| - 1] == old(history);
      published, failed := PublishRows(due, net);
    }

    /** The loop of `publishMissing` over the due rows. */
    method PublishRows(due: seq<OpenRow>, net: Services) returns (published: seq<OpenRow>, failed: bool)
      requires Valid() && Disciplined(grace, history)
      requires forall r :: r in due ==> Returned(grace, history, r.scan)
      modifies this
      ensures Valid() && Disciplined(grace, history)
      ensures (published, failed) == Pass(due, net)
      ensures history == old(history) + Marks(published)
    {
      published, failed := [], false;
      PassEnds(due, net);
      var i := 0;
      while i < |due|
        invariant 0 <= i <= |due| && !failed && Valid() && Disciplined(grace, history)
        invariant history == old(history) + Marks(published)
        invariant forall r :: r in due ==> Returned(grace, history, r.scan)
        invariant PassFrom(due, i, published, net)
      {
        PassStep(due, i, published, net);
        MarksGrow(old(history), published, due[i]);
        var outcome := PublishOne(due, due[i], net);
        if outcome.Failed? {
          failed := true;
          return;
        }
        if outcome.Sent? {
          published := published + [due[i]];
        }
        i := i + 1;
      }
    }

    /** One row: publish it, and remember it if it was sent. */
    method PublishOne(ghost due: seq<OpenRow>, row: OpenRow, net: Services) returns (outcome: Published)
      requires Valid() && Disciplined(grace, history) && row in due
      requires forall r :: r in due ==> Returned(grace, history, r.scan)
      modifies this
      ensures Valid() && Disciplined(grace, history) && outcome == Outcome(net, row)
      ensures outcome.Sent? ==> history == old(history) + [Marked(row.scan)]
      ensures !outcome.Sent? ==> history == old(history)
      ensures forall r :: r in due ==> Returned(grace, history, r.scan)
    {
      outcome := PublishAbandonedScan(row, net.pending(row.scan), net.takes(row));
      if outcome.Sent? {
        MarkReturned(due, row);
      }
    }

    method MarkReturned(ghost due: seq<OpenRow>, row: OpenRow)
      requires Valid() && Disciplined(grace, history) && row in due
      requires forall r :: r in due ==> Returned(grace, history, r.scan)
      modifies this
      ensures Valid() && Disciplined(grace, history) && history == old(history) + [Marked(row.scan)]
      ensures forall r :: r in due ==> Returned(grace, history, r.scan)
    {
      MarkSent(row.scan);
      assert history[..|history| - 1] == old(history);
      forall r | r in due ensures Returned(grace, history, r.scan) {
        ReturnedStays(grace, old(history), row.scan, r.scan);
      }
    }
  }

  ghost predicate PassFrom(due: seq<OpenRow>, i: int, published: seq<OpenRow>, net: Services) {
    0 <= i <= |due| && Pass(due, net) == (published + Pass(due[i..], net).0, Pass(due[i..], net).1)
  }

  lemma PassEnds(due: seq<OpenRow>, net: Services)
    ensures PassFrom(due, 0, [], net)
    ensures forall published :: PassFrom(due, |due|, published, net) ==> Pass(due, net) == (published, false)
  {
    assert due[0..] == due && [] + Pass(due, net).0 == Pass(due, net).0;
    assert due[|due|..] == [];
    assert forall published: seq<OpenRow> :: published + [] == published;
  }

  lemma PassStep(due: seq<OpenRow>, i: int, published: seq<OpenRow>, net: Services)
    requires i < |due| && PassFrom(due, i, published, net)
    ensures Outcome(net, due[i]).Failed? ==> Pass(due, net) == (published, true)
    ensures Outcome(net, due[i]).Sent? ==> PassFrom(due, i + 1, published + [due[i]], net)
    ensures Outcome(net, due[i]).Skipped? ==> PassFrom(due, i + 1, published, net)
  {
    assert due[i..][0] == due[i] && due[i..][1..] == due[i + 1..];
    assert published + [] == published;
    var rest := Pass(due[i + 1..], net).0;
    assert published + ([due[i]] + rest) == published + [due[i]] + rest;
  }

  lemma MarksGrow(h: seq<Event>, rows: seq<OpenRow>, row: OpenRow)
    ensures h + Marks(rows + [row]) == h + Marks(rows) + [Marked(row.scan)]
  {
    assert Marks(rows + [row]) == Marks(rows) + [Marked(row.scan)];
  }

  /** The map part-way through the first loop of `Due`, when the ids in `seen` have been handled. */
  ghost predicate PartlyScanned(m: map<ScanId, int>, w: Watch, c: Call, seen: set<ScanId>) {
    && (forall id :: id in m <==> if id in seen && id !in w.sent then id !in c.queued else id in w.missing)
    && (forall id :: id in m ==> m[id] == if id in w.missing then w.missing[id] else c.now)
  }

  function ScanRow(m: map<ScanId, int>, w: Watch, c: Call, id: ScanId): map<ScanId, int> {
    if id in w.sent then m else if id in c.queued then m - {id} else if id in m then m else m[id := c.now]
  }

  lemma ScanOne(m: map<ScanId, int>, w: Watch, c: Call, seen: set<ScanId>, id: ScanId)
    requires PartlyScanned(m, w, c, seen)
    ensures PartlyScanned(ScanRow(m, w, c, id), w, c, seen + {id})
  {
  }

  lemma ScannedThenDropped(m: map<ScanId, int>, w: Watch, c: Call)
    requires PartlyScanned(m, w, c, Ids(c.open))
    ensures (map id | id in m && id in Ids(c.open) :: m[id]) == AfterCall(w, c).missing
    ensures w.sent - (m.Keys - Ids(c.open)) == AfterCall(w, c).sent
  {
  }

  lemma DueRowsGrow(w: Watch, grace: int, c: Call, rows: seq<OpenRow>, row: OpenRow)
    ensures DueRows(w, grace, c, rows + [row])
            == DueRows(w, grace, c, rows) + if IsDue(w, grace, c, row.scan) then [row] else []
  {
    assert (rows + [row])[..|rows|] == rows;
  }

  lemma IdsOfPrefix(rows: seq<OpenRow>, row: OpenRow)
    ensures Ids(rows + [row]) == Ids(rows) + {row.scan}
  {
    assert forall i :: 0 <= i < |rows| ==> (rows + [row])[i] == rows[i];
    assert (rows + [row])[|rows|] == row;
  }

  /** `scanIDsFromPayloads`: a body that does not decode is absent, and the nil id is ignored. */
  method ScanIDsFromPayloads(payloads: seq<Option<ScanId>>) returns (ids: set<ScanId>)
    ensures forall id :: id in ids <==> id != NIL_SCAN && Some(id) in payloads
  {
    ids := {};
    for i := 0 to |payloads|
      invariant forall id :: id in ids <==> id != NIL_SCAN && Some(id) in payloads[..i]
    {
      if payloads[i].Some? && payloads[i].value != NIL_SCAN {
        ids := ids + {payloads[i].value};
      }
    }
  }
}
