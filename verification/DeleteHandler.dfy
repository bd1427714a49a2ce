/** The handlers of `GET` and `DELETE` for one scan (`internal/handler/discovery_v1_scans.go`) as the code that one
    request runs. Every call a delete makes to another service is one step of `ScanDeletion`: the history of the
    handler is a run of that machine. */
module DeleteHandler {
  import opened Domain
  import opened ScanDeletion

  /** Which calls go through, and what the policy service answers: none when it cannot be asked. */
  datatype Calls = Calls(read: bool, ask: bool, policy: Option<bool>, remove: Call, forget: Once)

  datatype Reply = Reply(answer: Answer) | NoReply

  function NewDelete(f: Family, u: Uuid, id: ScanId): Delete {
    Delete(f, u, id, false, false, Reading)
  }

  /** The status of a delete that nothing disturbs: found or not, then referenced or not, then whether the removals
      went through. */
  function StatusOf(st: Stores, d: Delete, c: Calls): Status {
    var row := OwnRow(st, d.family, d.user, d.id);
    if !c.read then ReadUnavailable
    else if !row && st.hasPending && !c.ask then CheckUnavailable
    else if !row && !(st.hasPending && Waiting(st, d.family, d.user, d.id)) then NotFound
    else if c.policy != Some(false) then if c.policy.None? then CheckUnavailable else Conflict
    else if row && !c.remove.Answered? then if c.remove.Retried? then NotFound else ReadUnavailable
    else if st.hasPending && !c.forget.Answered? then CheckUnavailable
    else NoContent
  }

  /** The policy check is reached and answers "not referenced". */
  predicate Clears(st: Stores, d: Delete, c: Calls) {
    && c.read && c.policy == Some(false)
    && (OwnRow(st, d.family, d.user, d.id) || (st.hasPending && c.ask && Waiting(st, d.family, d.user, d.id)))
  }

  /** What it leaves behind: a row goes first, and pending entries only after it. */
  function Left(st: Stores, d: Delete, c: Calls): Stores {
    if !Clears(st, d, c) then st
    else
      var u := WithoutRow(st, d, c.remove);
      var on := OwnRow(st, d.family, d.user, d.id) ==> c.remove.Answered?;
      if st.hasPending && on then WithoutPending(u, d, c.forget) else u
  }

  /** Each status by itself: 404 if nothing was found or a row delete that was tried again finds nothing, 409 if what
      was found is referenced, 204 if everything found was removed and every removal answered, and otherwise which
      service could not be reached. */
  lemma StatusMeans(st: Stores, d: Delete, c: Calls)
    ensures var row := OwnRow(st, d.family, d.user, d.id);
            var pending := !row && st.hasPending && Waiting(st, d.family, d.user, d.id);
            var looked := c.read && (row || !st.hasPending || c.ask);
            var found := looked && (row || pending);
            var s := StatusOf(st, d, c);
            && (s == NotFound <==>
                  (looked && !found) || (row && c.read && c.policy == Some(false) && c.remove == Retried))
            && (s == Conflict <==> found && c.policy == Some(true))
            && (s == NoContent <==>
                  && found && c.policy == Some(false) && (row ==> c.remove == Answered)
                  && (st.hasPending ==> c.forget == Answered))
            && (s == ReadUnavailable <==>
                  !c.read || (row && c.policy == Some(false) && (c.remove == Unheard || c.remove == Failed)))
  {
    assert c.policy.Some? && !c.policy.value ==> c.policy == Some(false);
    assert c.policy.Some? && c.policy.value ==> c.policy == Some(true);
  }

  class ScanHandler {
    var st: Stores
    ghost var deletes: map<nat, Delete>
    ghost var trace: seq<Step>
    ghost const origin: World

    ghost function State(): World
      reads this
    {
      World(st, deletes)
    }

    /** What the handler did so far is a run of the machine. */
    ghost predicate Valid()
      reads this
    {
      Start(origin) && Run(origin, trace) && Final(origin, trace) == State()
    }

    constructor (start: World)
      requires Start(start)
      ensures Valid() && State() == start && origin == start
    {
      st, deletes, trace, origin := start.st, map[], [], start;
    }

    method GetScan(f: Family, u: Uuid, id: ScanId, readOk: bool, pendingOk: bool) returns (r: Reply)
      ensures r.NoReply? <==> !readOk || (!Seen(st, f, u, id) && st.hasPending && !pendingOk)
      ensures r.Reply? ==> r.answer == Shown(st, f, u, id)
    {
      if !readOk {
        return NoReply;
      }
      if id in st.rows && st.rows[id].family == f && (st.rows[id].owner == u || (f.TlsScan? && st.rows[id].catalog)) {
        return Reply(Detail);
      }
      if st.hasPending {
        if !pendingOk {
          return NoReply;
        }
        if id in st.pending && st.pending[id].user == u && st.pending[id].family == f {
          return Reply(Requested);
        }
      }
      return Reply(Missing);
    }

    ghost method Log(w: World, s: Step)
      requires Start(origin) && Run(origin, trace) && Final(origin, trace) == w && Enabled(w, s)
      requires State() == Next(w, s)
      modifies this`trace
      ensures Valid()
    {
      Append(origin, trace, s);
      trace := trace + [s];
    }

    /** The row, if the user can delete it. */
    method FindRow(ghost n: nat, f: Family, u: Uuid, id: ScanId, ok: bool) returns (row: bool)
      requires Valid() && n !in deletes
      modifies this`deletes, this`trace
      ensures Valid() && row == (ok && OwnRow(st, f, u, id))
      ensures var d := NewDelete(f, u, id); deletes == old(deletes)[n := d.(pc := PcAfterRead(st, d, ok))]
    {
      ghost var w := State();
      deletes := deletes[n := NewDelete(f, u, id)];
      Log(w, Begin(n, f, u, id));
      var found := id in st.rows && st.rows[id].family == f;
      row := ok && found && st.rows[id].owner == u && !(f.TlsScan? && st.rows[id].catalog);
      ghost var w1 := State();
      deletes := deletes[n := DeleteAfter(w1, ReadRow(n, ok))];
      Log(w1, ReadRow(n, ok));
    }

    /** The pending record of the user. */
    method FindPending(ghost n: nat, f: Family, u: Uuid, id: ScanId, ok: bool) returns (waiting: bool)
      requires Valid() && n in deletes && deletes[n] == NewDelete(f, u, id).(pc := Asking)
      modifies this`deletes, this`trace
      ensures Valid() && waiting == (ok && Waiting(st, f, u, id))
      ensures var d := NewDelete(f, u, id); deletes == old(deletes)[n := d.(pc := PcAfterAsk(st, d, ok))]
    {
      ghost var w := State();
      waiting := ok && id in st.pending && st.pending[id].user == u && st.pending[id].family == f;
      deletes := deletes[n := DeleteAfter(w, ReadPending(n, ok))];
      Log(w, ReadPending(n, ok));
    }

    /** The lookup: the row, and failing that the pending record. */
    method Find(ghost n: nat, f: Family, u: Uuid, id: ScanId, c: Calls) returns (row: bool, stop: Option<Status>)
      requires Valid() && n !in deletes
      modifies this`deletes, this`trace
      ensures Valid() && n in deletes && deletes[n].pc == if stop.None? then Checking(row) else Done(stop.value, false)
      ensures deletes[n] == NewDelete(f, u, id).(pc := deletes[n].pc)
      ensures row ==> stop.None? && OwnRow(st, f, u, id)
      ensures stop.None? && !row ==> st.hasPending && c.ask && Waiting(st, f, u, id) && !OwnRow(st, f, u, id)
      ensures var d := NewDelete(f, u, id);
              stop.Some? ==> stop.value == StatusOf(st, d, c) && !Clears(st, d, c)
      ensures stop.None? ==> c.read
    {
      row := FindRow(n, f, u, id, c.read);
      if row {
        return true, None;
      }
      if !c.read || !st.hasPending {
        return false, Some(if c.read then NotFound else ReadUnavailable);
      }
      var waiting := FindPending(n, f, u, id, c.ask);
      if waiting {
        return false, None;
      }
      return false, Some(if c.ask then NotFound else CheckUnavailable);
    }

    /** The policy check. */
    method Check(ghost n: nat, row: bool, c: Calls) returns (stop: Option<Status>)
      requires Valid() && n in deletes && deletes[n].pc == Checking(row)
      modifies this`deletes, this`trace
      ensures Valid() && deletes == old(deletes)[n := AfterPolicy(old(deletes[n]), c.policy)]
      ensures stop ==
              if c.policy == Some(false) then None else Some(if c.policy.None? then CheckUnavailable else Conflict)
    {
      ghost var w := State();
      deletes := deletes[n := AfterPolicy(deletes[n], c.policy)];
      Log(w, Policy(n, c.policy));
      if c.policy.None? {
        return Some(CheckUnavailable);
      }
      return if c.policy.value then Some(Conflict) else None;
    }

    /** `DeleteWalletScan` and `DeleteTLSScan` of the scan store, with nobody in between. */
    method RemoveRow(ghost n: nat, id: ScanId, how: Call)
      requires Valid() && n in deletes && deletes[n].pc.Removing? && deletes[n].id == id
      requires OwnRow(st, deletes[n].family, deletes[n].user, id)
      modifies this`st, this`deletes, this`trace
      ensures Valid() && st == WithoutRow(old(st), old(deletes[n]), how)
      ensures deletes == old(deletes)[n := old(deletes[n]).(pc := PcAfterRemove(old(st), old(deletes[n]), how))]
    {
      ghost var w := State();
      if !how.Failed? {
        st := st.(rows := st.rows - {id});
      }
      deletes := deletes[n := DeleteAfter(w, Remove(n, how))];
      Log(w, Remove(n, how));
    }

    /** `clearPendingV1ScanCorrelation`. The wallet handler then also deletes the reservation of the address, which the
        pending store has taken along already. */
    method ClearPending(ghost n: nat, u: Uuid, id: ScanId, how: Once)
      requires Valid() && n in deletes && deletes[n].pc.Forgetting? && deletes[n].user == u && deletes[n].id == id
      modifies this`st, this`deletes, this`trace
      ensures Valid() && st == WithoutPending(old(st), old(deletes[n]), how)
      ensures deletes == old(deletes)[n := AfterForget(old(deletes[n]), how)]
    {
      ghost var w := State();
      if !how.Failed? {
        st := st.(pending := map x | x in st.pending && (x != id || st.pending[x].user != u) :: st.pending[x],
                  reservations := map k | k in st.reservations && (k.0 != u || st.reservations[k] != id)
                                    :: st.reservations[k]);
      }
      deletes := deletes[n := DeleteAfter(w, Forget(n, how))];
      Log(w, Forget(n, how));
    }

    /** The removals: the row if there is one, and then the pending entries. */
    method RemoveAll(ghost n: nat, ghost f: Family, u: Uuid, id: ScanId, row: bool, c: Calls) returns (s: Status)
      requires Valid() && n in deletes
      requires deletes[n] == NewDelete(f, u, id).(cleared := true, pc := if row then Removing else Forgetting(false))
      requires if row then OwnRow(st, f, u, id) else st.hasPending
      modifies this`st, this`deletes, this`trace
      ensures Valid() && n in deletes && deletes[n].pc == Done(s, row) && deletes[n].cleared
      ensures s == if row && !c.remove.Answered? then if c.remove.Retried? then NotFound else ReadUnavailable
                   else if st.hasPending && !c.forget.Answered? then CheckUnavailable
                   else NoContent
      ensures var d := old(deletes[n]);
              var rest := if row then WithoutRow(old(st), d, c.remove) else old(st);
              st == if st.hasPending && (row ==> c.remove.Answered?) then WithoutPending(rest, d, c.forget) else rest
    {
      if row {
        RemoveRow(n, id, c.remove);
        if !c.remove.Answered? {
          return if c.remove.Retried? then NotFound else ReadUnavailable;
        }
        if !st.hasPending {
          return NoContent;
        }
      }
      ClearPending(n, u, id, c.forget);
      return if c.forget.Answered? then NoContent else CheckUnavailable;
    }

    /** `DeleteDiscoveryV1WalletScan` and `DeleteDiscoveryV1TLSScan`. */
    method DeleteScan(ghost n: nat, f: Family, u: Uuid, id: ScanId, c: Calls) returns (s: Status)
      requires Valid() && n !in deletes
      modifies this`st, this`deletes, this`trace
      ensures Valid() && n in deletes && deletes[n].pc.Done? && deletes[n].pc.status == s
      ensures s == StatusOf(old(st), NewDelete(f, u, id), c)
      ensures st == Left(old(st), NewDelete(f, u, id), c)
    {
      var row, stop := Find(n, f, u, id, c);
      if stop.Some? {
        return stop.value;
      }
      stop := Check(n, row, c);
      if stop.Some? {
        return stop.value;
      }
      s := RemoveAll(n, f, u, id, row, c);
    }
  }
}
