/** Settling one lifecycle delivery (`internal/service/wallet_lifecycle.go`): at most two applies of the same
    command, then one of ack, term and nak. */
module Settlement {
  import opened Domain
  import opened WalletCommand

  datatype Outcome =
    | Applied | AlreadyApplied | AlreadyRunning | AlreadyTerminal | Rejected | RetryableError | UnknownOutcome

  /** What one call to persistence returns. */
  datatype Reply = Reply(outcome: Outcome, ready: bool) | CallFailed

  datatype Reason = BadMetadata | BadEvent | WasRejected | Retryable | Transport | NoProjection

  datatype Disposition = Ack | Term | Nak

  /** What a delivery did, each list in order: commands applied, reasons counted, dispositions issued. */
  datatype Log = Log(applied: seq<Command>, reasons: seq<Reason>, settled: seq<Disposition>)

  datatype Message = Message(subject: Subject, payload: Option<Event>)

  datatype Verdict = TryAgain | Conclude(disposition: Disposition, reason: Option<Reason>)

  /** The switch over one reply. */
  function Judge(cmd: Command, r: Reply): Verdict {
    if r.CallFailed? then TryAgain
    else
      match r.outcome
      case Applied | AlreadyApplied =>
        if !IsTerminal(cmd.target) || r.ready then Conclude(Ack, None) else Conclude(Nak, Some(NoProjection))
      case AlreadyRunning | AlreadyTerminal => Conclude(Ack, None)
      case Rejected => Conclude(Term, Some(WasRejected))
      case RetryableError => TryAgain
      case UnknownOutcome => TryAgain
  }

  predicate Retried(r: Reply) {
    r.Reply? && r.outcome.RetryableError?
  }

  /** The decision after the replies received so far; two inconclusive replies end in a nak. */
  function Decision(cmd: Command, replies: seq<Reply>): Verdict {
    if replies == [] then TryAgain
    else if Judge(cmd, replies[|replies| - 1]).Conclude? then Judge(cmd, replies[|replies| - 1])
    else if |replies| < 2 then TryAgain
    else Conclude(Nak, Some(if Retried(replies[0]) && Retried(replies[1]) then Retryable else Transport))
  }

  /** The replies a delivery consumes. */
  function Consumed(cmd: Command, replies: seq<Reply>, waits: bool): seq<Reply>
    requires |replies| == 2
  {
    if Judge(cmd, replies[0]).Conclude? || !waits then replies[..1] else replies
  }

  /** The log that a verdict on the consumed replies calls for. */
  ghost predicate LogOf(log: Log, cmd: Command, used: seq<Reply>) {
    var v := Decision(cmd, used);
    && log.applied == (if |used| == 1 then [cmd] else [cmd, cmd])
    && log.settled == (if v.TryAgain? then [] else [v.disposition])
    && log.reasons == (if v.Conclude? && v.reason.Some? then [v.reason.value] else [])
  }

  /* What a delivery of a command comes to, reply by reply. */

  predicate Undecided(r: Reply) {
    r.CallFailed? || r.outcome == RetryableError || r.outcome == UnknownOutcome
  }

  predicate TookEffect(r: Reply) {
    r.Reply? && (r.outcome == Applied || r.outcome == AlreadyApplied)
  }

  predicate MovedOn(r: Reply) {
    r.Reply? && (r.outcome == AlreadyRunning || r.outcome == AlreadyTerminal)
  }

  predicate WasRefused(r: Reply) {
    r.Reply? && r.outcome == Rejected
  }

  /** The command is applied a second time exactly if the first reply decides nothing and the pause is not interrupted.
      The last reply then decides: an ack if the scan had moved on, or if the command took effect and, for a terminal
      one, the projection is ready; a term if it was refused; otherwise a nak, with its reason. */
  ghost predicate SettledBy(log: Log, cmd: Command, replies: seq<Reply>, waits: bool)
    requires |replies| == 2
  {
    && log.applied == (if Undecided(replies[0]) && waits then [cmd, cmd] else [cmd])
    && var last := replies[|log.applied| - 1];
       var unready := TookEffect(last) && IsTerminal(cmd.target) && !last.ready;
       var exhausted := |log.applied| == 2 && Undecided(last);
       && (log.settled == [] <==> Undecided(replies[0]) && !waits)
       && (log.settled == [Ack] <==> MovedOn(last) || (TookEffect(last) && (!IsTerminal(cmd.target) || last.ready)))
       && (log.settled == [Term] <==> WasRefused(last))
       && (log.settled == [Nak] <==> unready || exhausted)
       && (log.reasons == [NoProjection] <==> unready) && (log.reasons == [WasRejected] <==> WasRefused(last))
       && (log.reasons == [Retryable] <==> exhausted && Retried(replies[0]) && Retried(replies[1]))
       && (log.reasons == [Transport] <==> exhausted && !(Retried(replies[0]) && Retried(replies[1])))
       && (log.reasons == [] <==> log.settled == [] || log.settled == [Ack])
  }

  lemma LogSettles(log: Log, cmd: Command, replies: seq<Reply>, waits: bool)
    requires |replies| == 2 && LogOf(log, cmd, Consumed(cmd, replies, waits))
    ensures SettledBy(log, cmd, replies, waits)
  {
  }

  /** `settle`. `meta` is the stream and sequence, absent when the metadata cannot be read; `replies` are what the
      calls would return; `waits` is false when the pause between the attempts is interrupted. */
  method Settle(meta: Option<(string, nat)>, msg: Message, marshals: bool, replies: seq<Reply>, waits: bool)
    returns (log: Log)
    requires |replies| == 2
    ensures meta.None? ==> log == Log([], [BadMetadata], [Nak])
    ensures meta.Some? ==>
              var d := WalletTransitionCommand(msg.subject, msg.payload, meta.value.0, meta.value.1);
              && (d.NotWallet? ==> log == Log([], [], [Ack]))
              && (d.Invalid? || (d.ForWallet? && !marshals) ==> log == Log([], [BadEvent], [Term]))
              && (d.ForWallet? && marshals ==> LogOf(log, d.cmd, Consumed(d.cmd, replies, waits)))
              && (d.ForWallet? && marshals ==> SettledBy(log, d.cmd, replies, waits))
  {
    if meta.None? {
      return Log([], [BadMetadata], [Nak]);
    }
    var d := WalletTransitionCommand(msg.subject, msg.payload, meta.value.0, meta.value.1);
    if d.NotWallet? {
      return Log([], [], [Ack]);
    }
    if d.Invalid? || !marshals {
      return Log([], [BadEvent], [Term]);
    }
    log := Attempts(d.cmd, replies, waits);
    LogSettles(log, d.cmd, replies, waits);
  }

  /** The attempt loop of `settle` and the final nak: one or two applies, all of the same command; one disposition
      unless the pause was interrupted; an ack after an applied terminal command means the projection was ready;
      the last nak says "retryable" exactly when both attempts did. */
  method Attempts(cmd: Command, replies: seq<Reply>, waits: bool) returns (log: Log)
    requires |replies| == 2
    ensures LogOf(log, cmd, Consumed(cmd, replies, waits))
    ensures 1 <= |log.applied| <= 2 && forall c :: c in log.applied ==> c == cmd
    ensures |log.settled| == (if Judge(cmd, replies[0]).TryAgain? && !waits then 0 else 1)
    ensures log.settled == [Ack] && IsTerminal(cmd.target) ==>
              var last := replies[|log.applied| - 1];
              last.Reply? && (last.outcome.Applied? || last.outcome.AlreadyApplied? ==> last.ready)
    ensures log.settled == [Term] <==> var last := replies[|log.applied| - 1]; last.Reply? && last.outcome.Rejected?
    ensures Retryable in log.reasons <==> |log.applied| == 2 && Retried(replies[0]) && Retried(replies[1])
  {
    log := Log([], [], []);
    var transport := false;
    var attempt := 0;
    while attempt < 2
      invariant 0 <= attempt <= 2
      invariant log == Log(if attempt == 0 then [] else if attempt == 1 then [cmd] else [cmd, cmd], [], [])
      invariant attempt > 0 ==> Judge(cmd, replies[0]).TryAgain?
      invariant attempt > 1 ==> Judge(cmd, replies[1]).TryAgain? && waits
      invariant transport <==> (attempt > 0 && !Retried(replies[0])) || (attempt > 1 && !Retried(replies[1]))
    {
      if attempt > 0 && !waits {
        return;
      }
      log := log.(applied := log.applied + [cmd]);
      var reply := replies[attempt];
      if reply.CallFailed? {
        transport := true;
      } else {
        match reply.outcome {
          case Applied | AlreadyApplied =>
            if !IsTerminal(cmd.target) || reply.ready {
              return log.(settled := [Ack]);
            }
            return log.(settled := [Nak], reasons := [NoProjection]);
          case AlreadyRunning | AlreadyTerminal =>
            return log.(settled := [Ack]);
          case Rejected =>
            return log.(settled := [Term], reasons := [WasRejected]);
          case RetryableError =>
          case UnknownOutcome => transport := true;
        }
      }
      attempt := attempt + 1;
    }
    log := log.(settled := [Nak], reasons := [if transport then Transport else Retryable]);
  }
}
