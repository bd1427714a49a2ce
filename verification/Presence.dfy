/** `ScannerPresenceTracker` (`internal/service/scanner_presence.go`): which scanners are up, from join and leave
    messages and from the sweep that expires silent wallet scanners. */
module Presence {
  import opened Domain

  const WALLET := "wallet"
  const TLS := "tls"
  const UNKNOWN := "unknown"
  const SILENT_AFTER := 75_000_000_000

  predicate Tracked(kind: string) {
    kind == WALLET || kind == TLS
  }

  datatype Meta = Meta(indexer: string, lastSeen: int)

  /** `Noise` is a decoded message whose event is neither joined nor left. */
  datatype Event =
    | Joined(kind: string, id: string, indexer: string, at: int)
    | Left(kind: string, id: string)
    | Noise(kind: string)
    | Sweep(now: int)

  datatype Roster = Roster(byType: map<string, set<string>>, meta: map<string, Meta>)

  function Of(r: Roster, kind: string): set<string> {
    if kind in r.byType then r.byType[kind] else {}
  }

  function Silent(r: Roster, now: int, window: int): set<string> {
    set id | id in r.meta && now - r.meta[id].lastSeen > window
  }

  /** What one event does to the two maps. */
  function After(r: Roster, e: Event, window: int): Roster {
    match e
    case Joined(kind, id, indexer, at) =>
      if !Tracked(kind) then r
      else
        var meta := if kind == WALLET then r.meta[id := Meta(indexer, at)] else r.meta;
        Roster(r.byType[kind := Of(r, kind) + {id}], meta)
    case Left(kind, id) =>
      if !Tracked(kind) then r
      else Roster(r.byType[kind := Of(r, kind) - {id}], if kind == WALLET then r.meta - {id} else r.meta)
    case Noise(kind) =>
      if !Tracked(kind) then r else r.(byType := r.byType[kind := Of(r, kind)])
    case Sweep(now) =>
      Roster(if WALLET in r.byType then r.byType[WALLET := Of(r, WALLET) - Silent(r, now, window)] else r.byType,
             r.meta - Silent(r, now, window))
  }

  function Replay(trace: seq<Event>, window: int): Roster {
    if trace == [] then Roster(map[], map[])
    else After(Replay(trace[..|trace| - 1], window), trace[|trace| - 1], window)
  }

  /* ---- What the trace says ---- */

  predicate About(e: Event, kind: string, id: string) {
    (e.Joined? || e.Left?) && e.kind == kind && e.id == id
  }

  /** The event at `j` is this scanner's last word, it is a join, and no later sweep found a wallet silent. */
  ghost predicate Stands(trace: seq<Event>, window: int, j: int, kind: string, id: string) {
    && 0 <= j < |trace| && trace[j].Joined? && About(trace[j], kind, id)
    && (forall i :: j < i < |trace| ==> !About(trace[i], kind, id))
    && (kind == WALLET ==> forall i :: j < i < |trace| && trace[i].Sweep? ==> trace[i].now - trace[j].at <= window)
  }

  ghost predicate Up(trace: seq<Event>, window: int, kind: string, id: string) {
    Tracked(kind) && exists j :: Stands(trace, window, j, kind, id)
  }

  lemma StandsExtends(trace: seq<Event>, e: Event, window: int, j: int, kind: string, id: string)
    ensures j != |trace| ==>
              (Stands(trace + [e], window, j, kind, id) <==>
               && Stands(trace, window, j, kind, id) && !About(e, kind, id)
               && (kind == WALLET && e.Sweep? ==> e.now - trace[j].at <= window))
    ensures Stands(trace + [e], window, |trace|, kind, id) <==> e.Joined? && About(e, kind, id)
  {
    var longer := trace + [e];
    assert forall i :: 0 <= i < |trace| ==> longer[i] == trace[i];
    assert longer[|trace|] == e;
  }

  /** The wallet metadata is that of the standing join. */
  ghost predicate MetaOf(trace: seq<Event>, window: int, r: Roster, id: string) {
    id in r.meta ==>
      exists j :: Stands(trace, window, j, WALLET, id) && r.meta[id] == Meta(trace[j].indexer, trace[j].at)
  }

  ghost predicate Explains(trace: seq<Event>, window: int, r: Roster, kind: string, id: string) {
    && (id in Of(r, kind) <==> Up(trace, window, kind, id))
    && (kind == WALLET ==> (id in r.meta <==> id in Of(r, WALLET)) && MetaOf(trace, window, r, id))
  }

  lemma EventExplained(trace: seq<Event>, window: int, r: Roster, e: Event, kind: string, id: string)
    requires Explains(trace, window, r, kind, id)
    ensures Explains(trace + [e], window, After(r, e, window), kind, id)
  {
    var longer, r' := trace + [e], After(r, e, window);
    forall j { StandsExtends(trace, e, window, j, kind, id); }
    if e.Joined? && About(e, kind, id) {
      assert Stands(longer, window, |trace|, kind, id) && longer[|trace|] == e;
    } else if exists j :: Stands(trace, window, j, kind, id) {
      var j :| Stands(trace, window, j, kind, id);
      assert forall i :: Stands(trace, window, i, kind, id) ==> i == j by { StandsOnce(trace, window, j, kind, id); }
      assert longer[j] == trace[j];
      assert Tracked(kind) ==> (Stands(longer, window, j, kind, id) <==> Up(longer, window, kind, id));
    }
  }

  lemma StandsOnce(trace: seq<Event>, window: int, j: int, kind: string, id: string)
    requires Stands(trace, window, j, kind, id)
    ensures forall i :: Stands(trace, window, i, kind, id) ==> i == j
  {
  }

  /** In every reachable state a scanner is listed exactly when the trace says it is up, and the two wallet maps
      have the same keys. */
  lemma {:induction false} RosterRefinesTrace(trace: seq<Event>, window: int, kind: string, id: string)
    ensures Explains(trace, window, Replay(trace, window), kind, id)
  {
    if trace != [] {
      var init := trace[..|trace| - 1];
      RosterRefinesTrace(init, window, kind, id);
      assert trace == init + [trace[|trace| - 1]];
      EventExplained(init, window, Replay(init, window), trace[|trace| - 1], kind, id);
    }
  }

  /** Sweeping early and again later is sweeping later, and no sweep touches TLS. */
  lemma SweepsCompose(r: Roster, t1: int, t2: int, window: int)
    requires t1 <= t2
    ensures After(After(r, Sweep(t1), window), Sweep(t2), window) == After(r, Sweep(t2), window)
    ensures Of(After(r, Sweep(t1), window), TLS) == Of(r, TLS)
  {
    var s := After(r, Sweep(t1), window);
    assert Silent(r, t1, window) + Silent(s, t2, window) == Silent(r, t2, window);
    assert After(s, Sweep(t2), window).meta == After(r, Sweep(t2), window).meta;
    if WALLET in r.byType {
      assert Of(s, WALLET) - Silent(s, t2, window) == Of(r, WALLET) - Silent(r, t2, window);
    }
    assert After(s, Sweep(t2), window).byType == After(r, Sweep(t2), window).byType;
  }

  /* ---- The tracker ---- */

  /** A join of a wallet or TLS scanner is seen, and so is its leaving; no other type ever is. A wallet scanner is
      dropped by a sweep exactly if it was silent for longer than the window, a TLS scanner never. */
  lemma LastWordCounts(trace: seq<Event>, window: int, kind: string, id: string, indexer: string, at: int, now: int)
    ensures Up(trace + [Joined(kind, id, indexer, at)], window, kind, id) <==> kind == "wallet" || kind == "tls"
    ensures !Up(trace + [Left(kind, id)], window, kind, id)
    ensures kind == "wallet" ==>
              (Up(trace + [Joined(kind, id, indexer, at)] + [Sweep(now)], window, kind, id) <==> now - at <= window)
    ensures kind == "tls" ==> Up(trace + [Joined(kind, id, indexer, at)] + [Sweep(now)], window, kind, id)
  {
    var join, joined := Joined(kind, id, indexer, at), trace + [Joined(kind, id, indexer, at)];
    var swept := joined + [Sweep(now)];
    StandsExtends(trace, join, window, |trace|, kind, id);
    StandsExtends(joined, Sweep(now), window, |trace|, kind, id);
    assert joined[|trace|] == join && swept[|trace|] == join;
    StandsOnce(joined, window, |trace|, kind, id);
    forall j { StandsExtends(joined, Sweep(now), window, j, kind, id); }
    forall j { StandsExtends(trace, Left(kind, id), window, j, kind, id); }
    assert !Stands(swept, window, |joined|, kind, id);
    assert forall j :: Stands(swept, window, j, kind, id) ==> Stands(joined, window, j, kind, id);
  }

  datatype ScannerInfo = ScannerInfo(kind: string, count: nat, ids: seq<string>)

  /** Every living wallet announces `c`. */
  ghost predicate Agreed(r: Roster, c: string) {
    Of(r, WALLET) != {} && c != "" && forall id :: id in Of(r, WALLET) ==> id in r.meta && r.meta[id].indexer == c
  }

  /** A listed entry: its ids are the scanners of its kind, each once. */
  ghost predicate Entry(r: Roster, info: ScannerInfo) {
    && Of(r, info.kind) != {} && Distinct(info.ids) && (forall id :: id in info.ids <==> id in Of(r, info.kind))
    && info.count == |info.ids| == |Of(r, info.kind)|
  }

  /** A listed entry names exactly the scanners that the trace says are up, and there is one: `HasScanner` agrees. */
  lemma ListedIsUp(trace: seq<Event>, window: int, info: ScannerInfo)
    requires Entry(Replay(trace, window), info)
    ensures forall id :: id in info.ids <==> Up(trace, window, info.kind, id)
    ensures exists id :: Up(trace, window, info.kind, id)
  {
    forall id ensures id in Of(Replay(trace, window), info.kind) <==> Up(trace, window, info.kind, id) {
      RosterRefinesTrace(trace, window, info.kind, id);
    }
    var id :| id in Of(Replay(trace, window), info.kind);
    assert id in info.ids;
  }

  class ScannerPresenceTracker {
    var byType: map<string, set<string>>
    var walletMeta: map<string, Meta>
    const silentAfter: int
    ghost var trace: seq<Event>

    ghost function Contents(): Roster
      reads this
    {
      Roster(byType, walletMeta)
    }

    function Window(): int {
      if silentAfter <= 0 then SILENT_AFTER else silentAfter
    }

    ghost predicate Valid()
      reads this
    {
      Contents() == Replay(trace, Window())
    }

    constructor (silent: int)
      ensures Valid() && trace == [] && Window() == if silent <= 0 then 75_000_000_000 else silent
    {
      byType, walletMeta, silentAfter, trace := map[], map[], silent, [];
    }

    ghost method Remember(e: Event)
      requires Contents() == After(Replay(trace, Window()), e, Window())
      modifies this`trace
      ensures Valid() && trace == old(trace) + [e]
    {
      trace := trace + [e];
      assert trace[..|trace| - 1] == old(trace);
    }

    /** A message that does not decode is absent; `e` is never a sweep. */
    method HandleMessage(message: Option<Event>)
      requires Valid() && (message.Some? ==> !message.value.Sweep?)
      modifies this
      ensures Valid() && trace == old(trace) + if message.Some? then [message.value] else []
    {
      if message.None? {
        return;
      }
      var e := message.value;
      if Tracked(e.kind) {
        if e.kind !in byType {
          byType := byType[e.kind := {}];
        }
        match e {
          case Joined(kind, id, indexer, at) =>
            byType := byType[kind := byType[kind] + {id}];
            if kind == WALLET {
              walletMeta := walletMeta[id := Meta(indexer, at)];
            }
          case Left(kind, id) =>
            byType := byType[kind := byType[kind] - {id}];
            if kind == WALLET {
              walletMeta := walletMeta - {id};
            }
          case Noise(_) =>
        }
      }
      Remember(e);
    }

    method ExpireSilentWallets(now: int)
      requires Valid()
      modifies this
      ensures Valid() && trace == old(trace) + [Sweep(now)]
    {
      var limit := Window();
      ghost var silent := Silent(Contents(), now, limit);
      var todo := walletMeta.Keys;
      while todo != {}
        invariant trace == old(trace) && todo <= walletMeta.Keys
        invariant walletMeta == old(walletMeta) - (silent - todo)
        invariant byType.Keys == old(byType).Keys
        invariant forall kind :: kind in byType && kind != WALLET ==> byType[kind] == old(byType)[kind]
        invariant WALLET in byType ==> byType[WALLET] == old(byType)[WALLET] - (silent - todo)
        decreases todo
      {
        var id :| id in todo;
        todo := todo - {id};
        if now - walletMeta[id].lastSeen > limit {
          walletMeta := walletMeta - {id};
          if WALLET in byType {
            byType := byType[WALLET := byType[WALLET] - {id}];
          }
        }
      }
      assert silent - todo == silent;
      assert byType == After(old(Contents()), Sweep(now), limit).byType;
      Remember(Sweep(now));
    }

    /** `heartbeat` says whether the Redis key of the kind is alive. */
    method HasScanner(kind: string, heartbeat: bool) returns (up: bool)
      requires Valid()
      ensures up <==> heartbeat || exists id :: Up(trace, Window(), kind, id)
    {
      up := heartbeat || (kind in byType && byType[kind] != {});
      forall id
        ensures id in Of(Contents(), kind) <==> Up(trace, Window(), kind, id)
      {
        RosterRefinesTrace(trace, Window(), kind, id);
      }
      if !heartbeat && up {
        ghost var id :| id in byType[kind];
        assert Up(trace, Window(), kind, id);
      }
    }

    /** Independent of the order in which the map is walked. */
    method OnchainIndexer() returns (indexer: string)
      ensures forall c :: Agreed(Contents(), c) ==> indexer == c
      ensures Agreed(Contents(), indexer) || indexer == UNKNOWN
      ensures Of(Contents(), "wallet") == {} ==> indexer == "unknown"
      ensures (exists id :: id in Of(Contents(), "wallet") && id in walletMeta && walletMeta[id].indexer == "") ==>
                indexer == "unknown"
      ensures (exists a, b :: && a in Of(Contents(), "wallet") && a in walletMeta
                              && b in Of(Contents(), "wallet") && b in walletMeta
                              && walletMeta[a].indexer != walletMeta[b].indexer) ==> indexer == "unknown"
    {
      var todo := if WALLET in byType then byType[WALLET] else {};
      ghost var all := todo;
      var common, seen := "", false;
      while todo != {}
        invariant todo <= all
        invariant seen <==> all - todo != {}
        invariant seen ==> common != ""
        invariant forall id :: id in all - todo ==> id in walletMeta && walletMeta[id].indexer == common
        decreases todo
      {
        ghost var done := all - todo;
        var id :| id in todo;
        todo := todo - {id};
        if id !in walletMeta || walletMeta[id].indexer == "" {
          return UNKNOWN;
        }
        if !seen {
          common, seen := walletMeta[id].indexer, true;
        } else if walletMeta[id].indexer != common {
          ghost var other :| other in done;
          return UNKNOWN;
        }
      }
      if !seen {
        return UNKNOWN;
      }
      indexer := common;
    }

    /** One entry per kind that has a scanner, with the number of distinct ids. */
    method ListScanners() returns (out: seq<ScannerInfo>)
      ensures forall i :: 0 <= i < |out| ==> Entry(Contents(), out[i])
      ensures forall i, j :: 0 <= i < j < |out| ==> out[i].kind != out[j].kind
      ensures forall kind :: Of(Contents(), kind) != {} ==> exists i :: 0 <= i < |out| && out[i].kind == kind
    {
      out := [];
      var todo := byType.Keys;
      while todo != {}
        invariant todo <= byType.Keys
        invariant forall i :: 0 <= i < |out| ==> Entry(Contents(), out[i]) && out[i].kind !in todo
        invariant forall i, j :: 0 <= i < j < |out| ==> out[i].kind != out[j].kind
        invariant forall kind :: kind !in todo && Of(Contents(), kind) != {} ==>
                  exists i :: 0 <= i < |out| && out[i].kind == kind
        decreases todo
      {
        var kind :| kind in todo;
        todo := todo - {kind};
        if byType[kind] != {} {
          var ids := ListIds(byType[kind]);
          ghost var before := out;
          out := out + [ScannerInfo(kind, |ids|, ids)];
          assert out[|before|].kind == kind;
          assert forall i :: 0 <= i < |before| ==> out[i] == before[i];
        }
      }
    }
  }

  method ListIds(ids: set<string>) returns (out: seq<string>)
    ensures Distinct(out) && (forall id :: id in out <==> id in ids) && |out| == |ids|
  {
    out := [];
    var todo := ids;
    while todo != {}
      invariant todo <= ids && Distinct(out)
      invariant forall id :: id in out <==> id in ids - todo
      invariant |out| + |todo| == |ids|
      decreases todo
    {
      var id :| id in todo;
      assert forall i :: 0 <= i < |out| ==> out[i] in out && out[i] != id;
      todo := todo - {id};
      out := out + [id];
    }
  }
}
