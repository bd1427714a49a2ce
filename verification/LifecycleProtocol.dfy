/** The lifecycle stream as a whole: unbounded redelivery, concurrent deliveries of one message, lost replies,
    crashes between apply and ack, and scan.failed racing scan.completed. Persistence is outside the repository; it
    is modelled by the contract its client relies on: one atomic compare-and-set on the source states per command,
    deduplicated by transition id, answering with the outcomes the settler switches over. */
module LifecycleProtocol {
  import opened Domain
  import opened WalletCommand
  import opened Settlement

  /** A reserved wallet scan. `path` is its state history, `applied` the transition ids that took effect,
      `credit` whether its ledger row is still there and `releases` how often it was released. */
  datatype Scan = Scan(
    owner: Uuid, state: ScanState, path: seq<ScanState>, applied: set<string>, credit: bool, releases: nat)

  function NewScan(owner: Uuid): Scan {
    Scan(owner, PENDING, [PENDING], {}, true, 0)
  }

  /** One delivery under way: which message, and the replies so far. */
  datatype Delivery = Delivery(msg: nat, replies: seq<Reply>)

  /** The stream holds what each message decodes to: `WalletTransitionCommand` is a function of the message, so a
      redelivery decodes to the same command again. */
  datatype World = World(name: string, messages: seq<Message>, stream: seq<Decoded>, scans: map<ScanId, Scan>,
                         deliveries: map<nat, Delivery>, acked: set<nat>, termed: set<nat>)

  /* ---- Persistence ---- */

  predicate Known(scans: map<ScanId, Scan>, cmd: Command) {
    cmd.scan in scans && scans[cmd.scan].owner == cmd.user
  }

  function Answer(scans: map<ScanId, Scan>, cmd: Command): Outcome {
    if !Known(scans, cmd) then Rejected
    else
      var s := scans[cmd.scan];
      if cmd.transition in s.applied then AlreadyApplied
      else if s.state in cmd.sources then Applied
      else if IsTerminal(s.state) then AlreadyTerminal
      else if s.state == cmd.target then AlreadyRunning
      else Rejected
  }

  function Moved(s: Scan, cmd: Command): Scan {
    Scan(s.owner, cmd.target, s.path + [cmd.target], s.applied + {cmd.transition},
         s.credit && !cmd.quota.QuotaRelease?, s.releases + if cmd.quota.QuotaRelease? then 1 else 0)
  }

  function Persist(scans: map<ScanId, Scan>, cmd: Command): map<ScanId, Scan> {
    if Answer(scans, cmd).Applied? then scans[cmd.scan := Moved(scans[cmd.scan], cmd)] else scans
  }

  /* ---- Steps ---- */

  datatype Step =
    | Reserve(id: ScanId, owner: Uuid)
    | Publish(message: Message)
    | Deliver(d: nat, msg: nat)
    | Call(d: nat, ready: bool)           // the call goes through and its answer arrives
    | CallLosesReply(d: nat)              // persistence commits, the answer is lost
    | CallMisses(d: nat, reply: Reply)    // no effect: a transport failure, a retryable error or an unknown outcome
    | Finish(d: nat)                      // ack, term or nak
    | Crash(d: nat)                       // the delivery vanishes; the stream will redeliver

  predicate Open(w: World, d: nat) {
    && d in w.deliveries && w.deliveries[d].msg < |w.stream| && w.stream[w.deliveries[d].msg].ForWallet?
    && Decision(w.stream[w.deliveries[d].msg].cmd, w.deliveries[d].replies).TryAgain?
  }

  predicate Enabled(w: World, s: Step) {
    match s
    case Reserve(id, _) => id !in w.scans
    case Publish(_) => true
    case Deliver(d, msg) => d !in w.deliveries && msg < |w.stream| && msg !in w.acked && msg !in w.termed
    case Call(d, _) => Open(w, d)
    case CallLosesReply(d) => Open(w, d)
    case CallMisses(d, reply) =>
      Open(w, d) && (reply.CallFailed? || reply.outcome.RetryableError? || reply.outcome.UnknownOutcome?)
    case Finish(d) =>
      && d in w.deliveries && w.deliveries[d].msg < |w.stream|
      && var c := w.stream[w.deliveries[d].msg];
         c.ForWallet? ==> Decision(c.cmd, w.deliveries[d].replies).Conclude?
    case Crash(d) => d in w.deliveries
  }

  function Disposed(w: World, d: nat): Disposition
    requires Enabled(w, Finish(d))
  {
    match w.stream[w.deliveries[d].msg]
    case NotWallet => Ack
    case Invalid => Term
    case ForWallet(cmd) => Decision(cmd, w.deliveries[d].replies).disposition
  }

  function Replied(w: World, d: nat, r: Reply): World
    requires d in w.deliveries
  {
    w.(deliveries := w.deliveries[d := w.deliveries[d].(replies := w.deliveries[d].replies + [r])])
  }

  function Next(w: World, s: Step): World
    requires Enabled(w, s)
  {
    match s
    case Reserve(id, owner) => w.(scans := w.scans[id := NewScan(owner)])
    case Publish(message) =>
      var decoded := WalletTransitionCommand(message.subject, message.payload, w.name, |w.stream| + 1);
      w.(messages := w.messages + [message], stream := w.stream + [decoded])
    case Deliver(d, msg) => w.(deliveries := w.deliveries[d := Delivery(msg, [])])
    case Call(d, ready) =>
      var cmd := w.stream[w.deliveries[d].msg].cmd;
      Replied(w, d, Reply(Answer(w.scans, cmd), ready)).(scans := Persist(w.scans, cmd))
    case CallLosesReply(d) =>
      var cmd := w.stream[w.deliveries[d].msg].cmd;
      Replied(w, d, CallFailed).(scans := Persist(w.scans, cmd))
    case CallMisses(d, reply) => Replied(w, d, reply)
    case Finish(d) =>
      var i := w.deliveries[d].msg;
      var done := w.(deliveries := w.deliveries - {d});
      (match Disposed(w, d)
       case Ack => done.(acked := w.acked + {i})
       case Term => done.(termed := w.termed + {i})
       case Nak => done)
    case Crash(d) => w.(deliveries := w.deliveries - {d})
  }

  ghost predicate Run(w: World, steps: seq<Step>)
    decreases |steps|
  {
    steps == [] || (Enabled(w, steps[0]) && Run(Next(w, steps[0]), steps[1..]))
  }

  ghost function Final(w: World, steps: seq<Step>): World
    requires Run(w, steps)
    decreases |steps|
  {
    if steps == [] then w else Final(Next(w, steps[0]), steps[1..])
  }

  function Start(name: string): World {
    World(name, [], [], map[], map[], {}, {})
  }

  /* ---- One scan ---- */

  /** A scan's history follows the state machine, each of its moves came from a different message, and its credit was
      released at most once, exactly when the scan failed. */
  ghost predicate ScanOk(s: Scan) {
    && s.path != [] && s.path[0] == PENDING && Path(s.path) && s.path[|s.path| - 1] == s.state
    && |s.applied| == |s.path| - 1
    && s.releases == (if s.state.FAILED? then 1 else 0)
    && (s.credit <==> !s.state.FAILED?)
  }

  /** What a wallet command promises about itself. */
  predicate Lawful(cmd: Command) {
    && (cmd.target.RUNNING? || cmd.target.SUCCESS? || cmd.target.FAILED?)
    && (forall s :: s in cmd.sources ==> ValidTransition(s, cmd.target))
    && (forall s: ScanState :: !s.Blank? && ValidTransition(s, cmd.target) ==> s in cmd.sources)
    && (cmd.quota.QuotaRelease? <==> cmd.target.FAILED?)
  }

  lemma MoveKeepsScanOk(s: Scan, cmd: Command)
    requires ScanOk(s) && Lawful(cmd) && s.state in cmd.sources && cmd.transition !in s.applied
    ensures ScanOk(Moved(s, cmd))
  {
    var h := s.path + [cmd.target];
    forall i | 0 <= i < |h| - 1
      ensures ValidTransition(h[i], h[i + 1])
    {
      if i < |s.path| - 1 {
        assert ValidTransition(s.path[i], s.path[i + 1]);
      }
    }
  }

  /** How far a command wants its scan: a start wants it started or beyond, an end wants it ended. */
  predicate Reached(target: ScanState, s: ScanState) {
    if IsTerminal(target) then IsTerminal(s) else !s.PENDING? && !s.Blank?
  }

  /** The command has nothing left to do. */
  predicate Done(scans: map<ScanId, Scan>, cmd: Command) {
    Known(scans, cmd) && Reached(cmd.target, scans[cmd.scan].state)
  }

  /** The reply reports that the command is done. */
  predicate Confirms(r: Reply) {
    && r.Reply?
    && (r.outcome.Applied? || r.outcome.AlreadyApplied? || r.outcome.AlreadyRunning? || r.outcome.AlreadyTerminal?)
  }

  /* ---- The invariant ---- */

  /** The message at position `i` has stream sequence `i + 1`, which its command carries. */
  ghost predicate StreamOk(name: string, stream: seq<Decoded>) {
    forall i :: 0 <= i < |stream| && stream[i].ForWallet? ==>
                  Lawful(stream[i].cmd) && stream[i].cmd.transition == TransitionId(name, i + 1)
  }

  /** A transition id that took effect belongs to a message whose command is done. */
  ghost predicate IdsDone(stream: seq<Decoded>, scans: map<ScanId, Scan>) {
    forall i :: 0 <= i < |stream| && stream[i].ForWallet? ==> IdDone(stream[i].cmd, scans)
  }

  predicate IdDone(cmd: Command, scans: map<ScanId, Scan>) {
    cmd.scan in scans && cmd.transition in scans[cmd.scan].applied ==> Reached(cmd.target, scans[cmd.scan].state)
  }

  /** Ids in use come from messages already in the stream. */
  ghost predicate IdsFromStream(name: string, length: nat, scans: map<ScanId, Scan>) {
    forall id, t :: id in scans && t in scans[id].applied ==> InStream(name, length, t)
  }

  ghost predicate InStream(name: string, length: nat, t: string) {
    exists n: nat :: 1 <= n <= length && t == TransitionId(name, n)
  }

  ghost predicate DeliveryOk(w: World, d: Delivery) {
    forall r :: r in d.replies && Confirms(r) ==>
        d.msg < |w.stream| && w.stream[d.msg].ForWallet? && Done(w.scans, w.stream[d.msg].cmd)
  }

  /** Nothing is acknowledged before it has had its effect. */
  ghost predicate AckOk(w: World, i: nat) {
    i < |w.stream| && !w.stream[i].Invalid? && (w.stream[i].ForWallet? ==> Done(w.scans, w.stream[i].cmd))
  }

  ghost predicate Inv(w: World) {
    && StreamOk(w.name, w.stream)
    && (forall id :: id in w.scans ==> ScanOk(w.scans[id]))
    && IdsFromStream(w.name, |w.stream|, w.scans) && IdsDone(w.stream, w.scans)
    && (forall d :: d in w.deliveries ==> DeliveryOk(w, w.deliveries[d]))
    && (forall i :: i in w.acked ==> AckOk(w, i))
  }

  /* ---- Scans only move forward ---- */

  ghost predicate Forward(scans: map<ScanId, Scan>, scans': map<ScanId, Scan>) {
    forall id :: id in scans ==>
                   && id in scans' && scans'[id].owner == scans[id].owner
                   && (IsTerminal(scans[id].state) ==> scans'[id].state == scans[id].state)
                   && (!scans[id].state.PENDING? && !scans[id].state.Blank? ==>
                       !scans'[id].state.PENDING? && !scans'[id].state.Blank?)
  }

  lemma PersistMovesForward(scans: map<ScanId, Scan>, cmd: Command)
    requires Lawful(cmd)
    ensures Forward(scans, Persist(scans, cmd))
  {
  }

  /** Moving the scans forward keeps what deliveries and acknowledgements rely on. */
  lemma ForwardKeepsPromises(w: World, scans': map<ScanId, Scan>)
    requires Inv(w) && Forward(w.scans, scans')
    ensures var w' := w.(scans := scans');
            && (forall d :: d in w.deliveries ==> DeliveryOk(w', w.deliveries[d]))
            && (forall i :: i in w.acked ==> AckOk(w', i))
  {
    assert forall cmd :: Done(w.scans, cmd) ==> Done(scans', cmd);
    forall d | d in w.deliveries ensures DeliveryOk(w.(scans := scans'), w.deliveries[d]) {
      assert DeliveryOk(w, w.deliveries[d]);
    }
    forall i | i in w.acked ensures AckOk(w.(scans := scans'), i) {
      assert AckOk(w, i);
    }
  }

  /** Only the message itself can carry the id that a call adds. */
  lemma PersistKeepsIds(w: World, i: nat)
    requires Inv(w) && i < |w.stream| && w.stream[i].ForWallet?
    ensures var scans' := Persist(w.scans, w.stream[i].cmd);
            IdsFromStream(w.name, |w.stream|, scans') && IdsDone(w.stream, scans')
  {
    var cmd := w.stream[i].cmd;
    var scans' := Persist(w.scans, cmd);
    forall j | 0 <= j < |w.stream| && w.stream[j].ForWallet?
      ensures IdDone(w.stream[j].cmd, scans')
    {
      TransitionIdInjective(w.name, i + 1, w.name, j + 1);
      assert IdDone(w.stream[j].cmd, w.scans);
    }
    assert InStream(w.name, |w.stream|, cmd.transition);
  }

  lemma PersistStep(w: World, i: nat)
    requires Inv(w) && i < |w.stream| && w.stream[i].ForWallet?
    ensures Inv(w.(scans := Persist(w.scans, w.stream[i].cmd)))
  {
    var cmd := w.stream[i].cmd;
    if Answer(w.scans, cmd).Applied? {
      MoveKeepsScanOk(w.scans[cmd.scan], cmd);
    }
    PersistMovesForward(w.scans, cmd);
    PersistKeepsIds(w, i);
    ForwardKeepsPromises(w, Persist(w.scans, cmd));
  }

  /** An answer that confirms is true once the call is over. */
  lemma ConfirmedIsDone(scans: map<ScanId, Scan>, cmd: Command, ready: bool)
    requires Lawful(cmd) && IdDone(cmd, scans)
    ensures Confirms(Reply(Answer(scans, cmd), ready)) ==> Done(Persist(scans, cmd), cmd)
  {
  }

  lemma ReplyStep(w: World, d: nat, r: Reply)
    requires Inv(w) && d in w.deliveries && w.deliveries[d].msg < |w.stream| && w.stream[w.deliveries[d].msg].ForWallet?
    requires Confirms(r) ==> Done(w.scans, w.stream[w.deliveries[d].msg].cmd)
    ensures Inv(Replied(w, d, r))
  {
    var w' := Replied(w, d, r);
    forall e | e in w'.deliveries ensures DeliveryOk(w', w'.deliveries[e]) {
      assert DeliveryOk(w, w.deliveries[e]);
    }
    assert forall i :: i in w.acked ==> AckOk(w, i);
  }

  lemma FinishStep(w: World, d: nat)
    requires Inv(w) && Enabled(w, Finish(d))
    ensures Inv(Next(w, Finish(d)))
  {
    var w' := Next(w, Finish(d));
    var i := w.deliveries[d].msg;
    assert DeliveryOk(w, w.deliveries[d]);
    if Disposed(w, d).Ack? && w.stream[i].ForWallet? {
      var replies := w.deliveries[d].replies;
      assert Confirms(replies[|replies| - 1]);
    }
    assert Disposed(w, d).Ack? ==> AckOk(w, i);
    assert forall j :: j in w'.acked ==> AckOk(w, j);
    assert forall e :: e in w'.deliveries ==> DeliveryOk(w, w.deliveries[e]);
  }

  /** The next message's id is not in use yet. */
  lemma NotYetInStream(name: string, length: nat)
    ensures !InStream(name, length, TransitionId(name, length + 1))
  {
    forall n: nat | 1 <= n <= length
      ensures TransitionId(name, length + 1) != TransitionId(name, n)
    {
      TransitionIdInjective(name, length + 1, name, n);
    }
  }

  lemma DecodedIsLawful(message: Message, name: string, sequence: nat)
    ensures var c := WalletTransitionCommand(message.subject, message.payload, name, sequence);
            c.ForWallet? ==> Lawful(c.cmd) && c.cmd.transition == TransitionId(name, sequence)
  {
    var c := WalletTransitionCommand(message.subject, message.payload, name, sequence);
    CommandsFollowTheStateMachine(message.subject, message.payload, name, sequence);
    CommandSaysWhatTheMessageSays(message.subject, message.payload, name, sequence);
    if c.ForWallet? {
      assert Asks(c.cmd, message.subject, message.payload.value);
      NoBlankSource(c.cmd);
    }
  }

  lemma NoBlankSource(cmd: Command)
    requires cmd.target.RUNNING? || cmd.target.SUCCESS? || cmd.target.FAILED?
    requires forall s: ScanState :: !s.Blank? ==> (s in cmd.sources <==> ValidTransition(s, cmd.target))
    ensures forall s :: s in cmd.sources ==> ValidTransition(s, cmd.target)
  {
    assert ValidTransition(Blank, cmd.target);
  }

  lemma AppendStep(w: World, m: Message, c: Decoded)
    requires Inv(w) && (c.ForWallet? ==> Lawful(c.cmd) && c.cmd.transition == TransitionId(w.name, |w.stream| + 1))
    ensures Inv(w.(messages := w.messages + [m], stream := w.stream + [c]))
  {
    var w' := w.(messages := w.messages + [m], stream := w.stream + [c]);
    NotYetInStream(w.name, |w.stream|);
    forall id, t | id in w.scans && t in w.scans[id].applied
      ensures InStream(w.name, |w'.stream|, t)
    {
      assert InStream(w.name, |w.stream|, t);
    }
    forall i | 0 <= i < |w'.stream| && w'.stream[i].ForWallet?
      ensures IdDone(w'.stream[i].cmd, w.scans)
    {
      if i < |w.stream| {
        assert IdDone(w.stream[i].cmd, w.scans);
      } else {
        assert c.cmd.scan in w.scans ==> c.cmd.transition !in w.scans[c.cmd.scan].applied;
      }
    }
    forall d | d in w.deliveries ensures DeliveryOk(w', w.deliveries[d]) { assert DeliveryOk(w, w.deliveries[d]); }
    forall i | i in w.acked ensures AckOk(w', i) { assert AckOk(w, i); }
  }

  lemma ReserveStep(w: World, id: ScanId, owner: Uuid)
    requires Inv(w) && id !in w.scans
    ensures Inv(Next(w, Reserve(id, owner)))
  {
    var w' := Next(w, Reserve(id, owner));
    ForwardKeepsPromises(w, w'.scans);
    forall i | 0 <= i < |w.stream| && w.stream[i].ForWallet? ensures IdDone(w.stream[i].cmd, w'.scans) {
      assert IdDone(w.stream[i].cmd, w.scans);
    }
  }

  lemma QuietStep(w: World, deliveries: map<nat, Delivery>)
    requires Inv(w)
    requires forall d :: d in deliveries ==>
               (d in w.deliveries && deliveries[d] == w.deliveries[d]) || deliveries[d].replies == []
    ensures Inv(w.(deliveries := deliveries))
  {
    var w' := w.(deliveries := deliveries);
    forall d | d in deliveries ensures DeliveryOk(w', deliveries[d]) {
      assert d in w.deliveries ==> DeliveryOk(w, w.deliveries[d]);
    }
    assert forall i :: i in w.acked ==> AckOk(w, i);
  }

  lemma InvStep(w: World, s: Step)
    requires Inv(w) && Enabled(w, s)
    ensures Inv(Next(w, s))
  {
    match s
    case Reserve(id, owner) => ReserveStep(w, id, owner);
    case Publish(message) =>
      DecodedIsLawful(message, w.name, |w.stream| + 1);
      AppendStep(w, message, WalletTransitionCommand(message.subject, message.payload, w.name, |w.stream| + 1));
    case Deliver(d, msg) => QuietStep(w, w.deliveries[d := Delivery(msg, [])]);
    case Call(d, ready) =>
      var cmd := w.stream[w.deliveries[d].msg].cmd;
      PersistStep(w, w.deliveries[d].msg);
      ConfirmedIsDone(w.scans, cmd, ready);
      ReplyStep(w.(scans := Persist(w.scans, cmd)), d, Reply(Answer(w.scans, cmd), ready));
    case CallLosesReply(d) =>
      PersistStep(w, w.deliveries[d].msg);
      ReplyStep(w.(scans := Persist(w.scans, w.stream[w.deliveries[d].msg].cmd)), d, CallFailed);
    case CallMisses(d, reply) => ReplyStep(w, d, reply);
    case Finish(d) => FinishStep(w, d);
    case Crash(d) => QuietStep(w, w.deliveries - {d});
  }

  lemma {:induction false} InvRun(w: World, steps: seq<Step>)
    requires Inv(w) && Run(w, steps)
    ensures Inv(Final(w, steps))
    decreases |steps|
  {
    if steps != [] {
      InvStep(w, steps[0]);
      InvRun(Next(w, steps[0]), steps[1..]);
    }
  }

  /** Whatever is delivered, redelivered, lost or raced: every scan's history follows the state machine and ends at
      its first terminal state, no message takes effect twice, the credit is released at most once and exactly when
      the scan failed. */
  lemma ExactlyOnceEffects(name: string, steps: seq<Step>, id: ScanId)
    requires Run(Start(name), steps) && id in Final(Start(name), steps).scans
    ensures var s := Final(Start(name), steps).scans[id];
            && Path(s.path) && |s.path| <= 3 && |s.applied| == |s.path| - 1
            && (forall i :: 0 <= i < |s.path| && IsTerminal(s.path[i]) ==> i == |s.path| - 1 && s.state == s.path[i])
            && s.releases == (if s.state.FAILED? then 1 else 0) && (s.credit <==> !s.state.FAILED?)
  {
    InvRun(Start(name), steps);
    PathsEndAtFirstTerminal(Final(Start(name), steps).scans[id].path);
  }

  /** No wallet message is acknowledged before its scan got where the message wants it. */
  lemma AcksAreEarned(name: string, steps: seq<Step>, i: nat)
    requires Run(Start(name), steps) && i in Final(Start(name), steps).acked
    ensures var w := Final(Start(name), steps);
            i < |w.stream| && !w.stream[i].Invalid? && (w.stream[i].ForWallet? ==> Done(w.scans, w.stream[i].cmd))
  {
    InvRun(Start(name), steps);
    assert AckOk(Final(Start(name), steps), i);
  }

  lemma TerminalStep(w: World, s: Step, id: ScanId)
    requires Inv(w) && Enabled(w, s) && id in w.scans && IsTerminal(w.scans[id].state)
    ensures id in Next(w, s).scans && Next(w, s).scans[id].state == w.scans[id].state
  {
    match s
    case Call(d, _) => PersistMovesForward(w.scans, w.stream[w.deliveries[d].msg].cmd);
    case CallLosesReply(d) => PersistMovesForward(w.scans, w.stream[w.deliveries[d].msg].cmd);
    case _ =>
  }

  /** A terminal state is final: no later step of any run changes it. */
  lemma {:induction false} TerminalIsFinal(w: World, steps: seq<Step>, id: ScanId)
    requires Inv(w) && Run(w, steps) && id in w.scans && IsTerminal(w.scans[id].state)
    ensures var w' := Final(w, steps); id in w'.scans && w'.scans[id].state == w.scans[id].state
    decreases |steps|
  {
    if steps != [] {
      InvStep(w, steps[0]);
      TerminalStep(w, steps[0], id);
      TerminalIsFinal(Next(w, steps[0]), steps[1..], id);
    }
  }

  /* ---- Every state has its message ---- */

  /** The stream holds what its messages decode to. */
  ghost predicate Decodes(w: World) {
    && |w.messages| == |w.stream|
    && forall i :: 0 <= i < |w.stream| ==>
         w.stream[i] == WalletTransitionCommand(w.messages[i].subject, w.messages[i].payload, w.name, i + 1)
  }

  /** Some wallet message in the stream asks for this state of this scan. */
  ghost predicate AskedFor(stream: seq<Decoded>, id: ScanId, state: ScanState) {
    exists i :: 0 <= i < |stream| && stream[i].ForWallet? && stream[i].cmd.scan == id && stream[i].cmd.target == state
  }

  ghost predicate Caused(w: World) {
    forall id :: id in w.scans && w.scans[id].state != PENDING ==> AskedFor(w.stream, id, w.scans[id].state)
  }

  lemma AskedStays(stream: seq<Decoded>, c: Decoded, id: ScanId, state: ScanState)
    requires AskedFor(stream, id, state)
    ensures AskedFor(stream + [c], id, state)
  {
    var i :| 0 <= i < |stream| && stream[i].ForWallet? && stream[i].cmd.scan == id && stream[i].cmd.target == state;
    assert (stream + [c])[i] == stream[i];
  }

  lemma PersistCaused(w: World, i: nat)
    requires Caused(w) && i < |w.stream| && w.stream[i].ForWallet?
    ensures Caused(w.(scans := Persist(w.scans, w.stream[i].cmd)))
  {
    assert AskedFor(w.stream, w.stream[i].cmd.scan, w.stream[i].cmd.target);
  }

  lemma DecodesStep(w: World, s: Step)
    requires Decodes(w) && Enabled(w, s)
    ensures Decodes(Next(w, s))
  {
  }

  lemma PublishCaused(w: World, c: Decoded)
    requires Caused(w)
    ensures forall id :: id in w.scans && w.scans[id].state != PENDING ==>
                           AskedFor(w.stream + [c], id, w.scans[id].state)
  {
    forall id | id in w.scans && w.scans[id].state != PENDING ensures AskedFor(w.stream + [c], id, w.scans[id].state) {
      AskedStays(w.stream, c, id, w.scans[id].state);
    }
  }

  lemma CausedStep(w: World, s: Step)
    requires Caused(w) && Enabled(w, s)
    ensures Caused(Next(w, s))
  {
    match s
    case Publish(message) =>
      PublishCaused(w, WalletTransitionCommand(message.subject, message.payload, w.name, |w.stream| + 1));
    case Call(d, _) => PersistCaused(w, w.deliveries[d].msg);
    case CallLosesReply(d) => PersistCaused(w, w.deliveries[d].msg);
    case _ =>
  }

  lemma {:induction false} CausedRun(w: World, steps: seq<Step>)
    requires Caused(w) && Decodes(w) && Run(w, steps)
    ensures Caused(Final(w, steps)) && Decodes(Final(w, steps))
    decreases |steps|
  {
    if steps != [] {
      CausedStep(w, steps[0]);
      DecodesStep(w, steps[0]);
      CausedRun(Next(w, steps[0]), steps[1..]);
    }
  }

  /** A message with this subject about this wallet scan was published. */
  ghost predicate Announced(messages: seq<Message>, subject: Subject, id: ScanId) {
    exists i :: 0 <= i < |messages| && messages[i].subject == subject && messages[i].payload.Some?
                && messages[i].payload.value.kind == "wallet" && messages[i].payload.value.scan == Some(id)
  }

  /** In every run a scan runs only if a scan.started about it was published, succeeded only if a scan.completed was,
      and failed only if a scan.failed was; no other states are reached. */
  lemma StatesAreAnnounced(name: string, steps: seq<Step>, id: ScanId)
    requires Run(Start(name), steps) && id in Final(Start(name), steps).scans
    ensures var w := Final(Start(name), steps); var state := w.scans[id].state;
            || state == PENDING
            || (state == RUNNING && Announced(w.messages, ScanStarted, id))
            || (state == SUCCESS && Announced(w.messages, ScanCompleted, id))
            || (state == FAILED && Announced(w.messages, ScanFailed, id))
  {
    CausedRun(Start(name), steps);
    var w := Final(Start(name), steps);
    var state := w.scans[id].state;
    if state != PENDING {
      var i :| && 0 <= i < |w.stream| && w.stream[i].ForWallet?
               && w.stream[i].cmd.scan == id && w.stream[i].cmd.target == state;
      var m := w.messages[i];
      CommandSaysWhatTheMessageSays(m.subject, m.payload, w.name, i + 1);
      assert m.payload.Some? && m.payload.value.scan == Some(id);
      assert Announced(w.messages, m.subject, id);
    }
  }

  /* ---- Every message can be settled ---- */

  /** Foreign messages are acknowledged and invalid ones terminated, without a call. */
  lemma OthersAreSettledAtOnce(w: World, d: nat)
    requires d in w.deliveries && w.deliveries[d].msg < |w.stream| && !w.stream[w.deliveries[d].msg].ForWallet?
    ensures var i := w.deliveries[d].msg; var v := Next(w, Finish(d));
            && Enabled(w, Finish(d)) && v.scans == w.scans
            && (w.stream[i].NotWallet? ==> i in v.acked && v.termed == w.termed)
            && (w.stream[i].Invalid? ==> i in v.termed && v.acked == w.acked)
  {
  }

  /** A known scan never refuses a command, once it had its chance. */
  lemma KnownIsNotRefused(w: World, cmd: Command)
    requires Inv(w) && Lawful(cmd) && Known(w.scans, cmd)
    ensures Answer(w.scans, cmd) != Rejected
  {
    var s := w.scans[cmd.scan];
    assert ScanOk(s);
    assert s.state != Blank by {
      var n := |s.path|;
      if n > 1 {
        assert ValidTransition(s.path[n - 2], s.path[n - 1]);
      }
    }
    TransitionsAreExact(s.state, cmd.target);
  }

  lemma ThreeSteps(w: World, a: Step, b: Step, c: Step)
    requires Enabled(w, a) && Enabled(Next(w, a), b) && Enabled(Next(Next(w, a), b), c)
    ensures Run(w, [a, b, c]) && Final(w, [a, b, c]) == Next(Next(Next(w, a), b), c)
  {
    var w1 := Next(w, a);
    var w2 := Next(w1, b);
    var w3 := Next(w2, c);
    assert Run(w3, []) && Final(w3, []) == w3;
    assert [c][1..] == [] && [b, c][1..] == [c] && [a, b, c][1..] == [b, c];
    assert Run(w2, [c]) && Final(w2, [c]) == w3;
    assert Run(w1, [b, c]) && Final(w1, [b, c]) == w3;
  }

  /** A delivery whose call is answered acknowledges its message. */
  lemma AnsweredIsAcked(w: World, i: nat, d: nat)
    requires i < |w.stream| && w.stream[i].ForWallet? && Answer(w.scans, w.stream[i].cmd) != Rejected
    requires i !in w.acked && i !in w.termed && d !in w.deliveries
    ensures var w1 := Next(w, Deliver(d, i));
            && Enabled(w1, Call(d, true)) && Enabled(Next(w1, Call(d, true)), Finish(d))
            && i in Next(Next(w1, Call(d, true)), Finish(d)).acked
  {
    var w2 := Next(Next(w, Deliver(d, i)), Call(d, true));
    assert w2.deliveries[d].replies == [Reply(Answer(w.scans, w.stream[i].cmd), true)];
  }

  /** From every reachable state, a wallet message about a known scan that is not yet settled can be delivered, applied
      and acknowledged. */
  lemma CanBeAcknowledged(name: string, steps: seq<Step>, i: nat, d: nat) returns (more: seq<Step>)
    requires Run(Start(name), steps)
    requires var w := Final(Start(name), steps);
             && i < |w.stream| && w.stream[i].ForWallet? && Known(w.scans, w.stream[i].cmd)
             && i !in w.acked && i !in w.termed && d !in w.deliveries
    ensures Run(Final(Start(name), steps), more) && i in Final(Final(Start(name), steps), more).acked
  {
    var w := Final(Start(name), steps);
    InvRun(Start(name), steps);
    KnownIsNotRefused(w, w.stream[i].cmd);
    AnsweredIsAcked(w, i, d);
    ThreeSteps(w, Deliver(d, i), Call(d, true), Finish(d));
    more := [Deliver(d, i), Call(d, true), Finish(d)];
  }
}
