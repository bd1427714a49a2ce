/** From a lifecycle event to the transition command sent to persistence (`internal/service/wallet_command.go`). */
module WalletCommand {
  import opened Domain
  import opened Address

  datatype Subject = ScanStarted | ScanCompleted | ScanFailed | OtherSubject

  /** A decoded payload; an id that does not parse as a UUID is absent. */
  datatype Event = Event(
    kind: string, scan: Option<ScanId>, user: Option<Uuid>, address: string, result: string, error: string)

  datatype QuotaAction = QuotaNone | QuotaKeep | QuotaRelease

  datatype Command = Command(scan: ScanId, transition: string, user: Uuid, address: string,
                             sources: seq<ScanState>, target: ScanState, quota: QuotaAction, result: string,
                             error: string)

  datatype Decoded = ForWallet(cmd: Command) | NotWallet | Invalid

  const KIND_WALLET := "wallet"

  /* ---- Transition ids ---- */

  function Digit(n: nat): char
    requires n < 10
  {
    ('0' as int + n) as char
  }

  function Decimal(n: nat): (s: string)
    ensures s != [] && forall i :: 0 <= i < |s| ==> '0' <= s[i] <= '9'
  {
    if n < 10 then [Digit(n)] else Decimal(n / 10) + [Digit(n % 10)]
  }

  function TransitionId(stream: string, sequence: nat): string {
    stream + ":" + Decimal(sequence)
  }

  lemma {:induction false} DecimalInjective(m: nat, n: nat)
    requires Decimal(m) == Decimal(n)
    ensures m == n
  {
    var s, t := Decimal(m), Decimal(n);
    assert s[|s| - 1] == Digit(m % 10) && t[|t| - 1] == Digit(n % 10);
    if m >= 10 && n >= 10 {
      assert s[..|s| - 1] == Decimal(m / 10) && t[..|t| - 1] == Decimal(n / 10);
      DecimalInjective(m / 10, n / 10);
    }
  }

  /** The number that decimal digits denote. */
  function ValueOf(s: string): int {
    if s == [] then 0 else 10 * ValueOf(s[..|s| - 1]) + (s[|s| - 1] as int - '0' as int)
  }

  /** The decimal form reads back as the number, without leading zeros. */
  lemma {:induction false} DecimalReadsBack(n: nat)
    ensures ValueOf(Decimal(n)) == n && (Decimal(n)[0] == '0' ==> n == 0)
  {
    var s := Decimal(n);
    if n < 10 {
      assert s[..0] == [] && ValueOf([]) == 0;
    } else {
      assert s[..|s| - 1] == Decimal(n / 10);
      DecimalReadsBack(n / 10);
    }
  }

  /** Two messages share a transition id only if they are the same message of the same stream,
      even when stream names contain colons or digits. */
  lemma TransitionIdInjective(a: string, m: nat, b: string, n: nat)
    ensures TransitionId(a, m) == TransitionId(b, n) <==> a == b && m == n
  {
    var s, t := TransitionId(a, m), TransitionId(b, n);
    if s == t {
      assert s[|a|] == ':' && t[|b|] == ':';
      assert forall i :: |a| < i < |s| ==> s[i] == Decimal(m)[i - |a| - 1];
      assert forall i :: |b| < i < |t| ==> t[i] == Decimal(n)[i - |b| - 1];
      assert |a| == |b|;
      assert a == s[..|a|] && b == t[..|b|];
      assert Decimal(m) == s[|a| + 1..] && Decimal(n) == t[|b| + 1..];
      DecimalInjective(m, n);
    }
  }

  /* ---- Commands ---- */

  /** The states a command may start from, and the state and quota action it asks for. */
  function CommandFor(e: Event, stream: string, sequence: nat, sources: seq<ScanState>, target: ScanState,
                      quota: QuotaAction, result: string, error: string): Decoded {
    if e.kind != KIND_WALLET then NotWallet
    else if e.scan.None? || e.user.None? || ValidateAndNormalize(e.address).Err? then Invalid
    else ForWallet(Command(e.scan.value, TransitionId(stream, sequence), e.user.value,
                           ValidateAndNormalize(e.address).value,
                           sources, target, quota, result, error))
  }

  function WalletTransitionCommand(subject: Subject, payload: Option<Event>, stream: string, sequence: nat): Decoded {
    if payload.None? then Invalid
    else
      var e := payload.value;
      match subject
      case ScanStarted => CommandFor(e, stream, sequence, [PENDING], RUNNING, QuotaNone, "", "")
      case ScanCompleted => CommandFor(e, stream, sequence, [PENDING, RUNNING], SUCCESS, QuotaKeep, e.result, "")
      case ScanFailed => CommandFor(e, stream, sequence, [PENDING, RUNNING], FAILED, QuotaRelease, "", e.error)
      case OtherSubject => Invalid
  }

  /** Every command agrees with the state machine: its sources are exactly the stored states from which its
      target is a valid transition, and it releases the credit exactly when it fails the scan. */
  lemma CommandsFollowTheStateMachine(subject: Subject, payload: Option<Event>, stream: string, sequence: nat)
    ensures var d := WalletTransitionCommand(subject, payload, stream, sequence);
            d.ForWallet? ==>
              && (forall s: ScanState :: !s.Blank? ==> (s in d.cmd.sources <==> ValidTransition(s, d.cmd.target)))
              && (d.cmd.quota.QuotaRelease? <==> d.cmd.target.FAILED?)
              && (d.cmd.quota.QuotaKeep? <==> d.cmd.target.SUCCESS?)
              && ValidateAndNormalize(d.cmd.address) == Ok(d.cmd.address)
  {
    if WalletTransitionCommand(subject, payload, stream, sequence).ForWallet? {
      AcceptedIsFixed(payload.value.address);
    }
  }

  /** What a command asks for, by the subject of its message. */
  predicate Asks(cmd: Command, subject: Subject, e: Event) {
    match subject
    case ScanStarted =>
      cmd.target == RUNNING && cmd.sources == [PENDING] && cmd.quota == QuotaNone && cmd.result == "" && cmd.error == ""
    case ScanCompleted =>
      cmd.target == SUCCESS && cmd.quota == QuotaKeep && cmd.result == e.result && cmd.error == ""
    case ScanFailed =>
      cmd.target == FAILED && cmd.quota == QuotaRelease && cmd.result == "" && cmd.error == e.error
    case OtherSubject => false
  }

  /** Which messages are wallet commands, and what each of them asks for: a message that does not decode or has another
      subject is invalid, one about something else than a wallet is not ours, and a wallet message is a command exactly
      if both ids parse and the address is accepted. */
  lemma CommandSaysWhatTheMessageSays(subject: Subject, payload: Option<Event>, stream: string, sequence: nat)
    ensures var d := WalletTransitionCommand(subject, payload, stream, sequence);
            && (payload.None? || subject == OtherSubject ==> d.Invalid?)
            && (payload.Some? && subject != OtherSubject ==>
                  var e := payload.value;
                  && (d.NotWallet? <==> e.kind != "wallet")
                  && (d.ForWallet? <==>
                        e.kind == "wallet" && e.scan.Some? && e.user.Some? && ValidateAndNormalize(e.address).Ok?)
                  && (d.ForWallet? ==>
                        && d.cmd.scan == e.scan.value && d.cmd.user == e.user.value
                        && ValidateAndNormalize(e.address) == Ok(d.cmd.address)
                        && d.cmd.transition == stream + ":" + Decimal(sequence) && Asks(d.cmd, subject, e)))
  {
  }
}
