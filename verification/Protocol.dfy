/**
 The disposition command protocol as a transition system.

 Any number of Hosts, each identified by the residency epoch its grant carries,
 share one durable command store and one runtime journal.  Every action below is
 one durable write, one runtime append or one local decision, so a history is an
 arbitrary interleaving of them, with crashes between any two.

 A Host's own memory is reduced to its `Permit`: what its last acknowledged
 answer lets it do next.  The imperative applier (module Applier) is verified to
 take no other step.
 */
module Protocol {
  import opened Base

  type AttemptId = nat

  /** The one authorized dispatch: its identity, the runtime's journal grant and the Host's residency. */
  datatype Attempt = Attempt(id: AttemptId, journalEpoch: nat, residency: nat)

  datatype Record = Record(
    order: nat, kind: Kind, state: CommandState, revision: nat,
    claimResidency: nat, claimExpires: int, attempt: Option<Attempt>)

  /** What the runtime durably said about an attempt. */
  datatype Disposition = DisposedApplied | DisposedNoOp | DisposedRefused

  function Verdict(d: Disposition): CommandState {
    if d.DisposedRefused? then Rejected else Applied
  }

  datatype Entry =
    | Effect(cmd: CommandId, attempt: AttemptId, epoch: nat)
    | Disposed(cmd: CommandId, attempt: AttemptId, epoch: nat, what: Disposition)
    | Closed(cmd: CommandId, attempt: AttemptId, attemptEpoch: nat, author: nat)

  datatype Permit =
    | Idle
    | MayDrive(cmd: CommandId, attempt: AttemptId)
    | MayClose(cmd: CommandId)

  /** One Host's tenure of the session: its runtime's journal grant and its permit. */
  datatype Host = Host(grant: Option<nat>, permit: Permit, lost: bool) // `lost`: its residency grant is gone

  /** Why a settlement was not answered with a terminal state. */
  datatype SettleFault =
    | NoEvidence // the store was reached, and the journal says nothing of the attempt
    | Unreached  // the store or its evidence reader could not be
    | FenceLost  // this Host's own fence refused the write
    | AckLost    // the record is settled, and the answer did not arrive
    | Superseded // a later residency holds the claim

  /** One call of the runtime's ApplyCommand. */
  datatype Drive = Drive(host: nat, cmd: CommandId, attempt: AttemptId, grant: nat)

  datatype State = State(
    records: map<CommandId, Record>,
    maxOrder: nat,
    clock: int,
    journal: seq<Entry>,
    journalEpoch: nat,
    hosts: map<nat, Host>,
    maxResidency: nat,
    drives: seq<Drive>)

  function Init(): State { State(map[], 0, 0, [], 0, map[], 0, []) }

  datatype Action =
    | Accept(cmd: CommandId, kind: Kind)
    | Tick(now: int)
    | FactoryReject(cmd: CommandId)
    | Attach(host: nat)
    | OpenJournal(host: nat, grant: nat)
    | Crash(host: nat)
    | Claim(host: nat, cmd: CommandId, revision: nat, expires: int)
    | Begin(host: nat, cmd: CommandId, revision: nat, attempt: AttemptId, acked: bool)
    | Reject(host: nat, cmd: CommandId, revision: nat)
    | DriveRuntime(host: nat)
    | Forgo(host: nat)
    | RuntimeEffect(drive: nat)
    | RuntimeDispose(drive: nat, what: Disposition)
    | Settle(host: nat, cmd: CommandId, revision: nat, verdict: CommandState)
    | SettleFailed(host: nat, cmd: CommandId, fault: SettleFault)
    | LoseGrant(host: nat)
    | Close(host: nat, cmd: CommandId)

  // ------------------------------------------------------------------------
  // Evidence
  // ------------------------------------------------------------------------

  /** A journal entry that settles the given attempt of a command with the given verdict. */
  predicate Supports(e: Entry, cmd: CommandId, a: Attempt, verdict: CommandState) {
    match e
    case Effect(_, _, _) => false
    case Disposed(c, id, epoch, what) =>
      c == cmd && id == a.id && epoch == a.journalEpoch && verdict == Verdict(what)
    case Closed(c, id, attemptEpoch, author) =>
      c == cmd && id == a.id && attemptEpoch == a.journalEpoch && attemptEpoch < author && verdict == Rejected
  }

  predicate HasEvidence(journal: seq<Entry>, cmd: CommandId, a: Attempt, verdict: CommandState) {
    exists i :: 0 <= i < |journal| && Supports(journal[i], cmd, a, verdict)
  }

  predicate HasEffect(journal: seq<Entry>, cmd: CommandId) {
    exists i :: 0 <= i < |journal| && journal[i].Effect? && journal[i].cmd == cmd
  }

  predicate IsDisposed(journal: seq<Entry>, cmd: CommandId) {
    exists i :: 0 <= i < |journal| && journal[i].Disposed? && journal[i].cmd == cmd
  }

  predicate IsClosed(journal: seq<Entry>, cmd: CommandId) {
    exists i :: 0 <= i < |journal| && journal[i].Closed? && journal[i].cmd == cmd
  }

  // ------------------------------------------------------------------------
  // The store's edge rules, the journal's single-writer fence, and each Host
  // ------------------------------------------------------------------------

  predicate Claimable(r: Record, host: nat, clock: int) {
    r.attempt.None? &&
    (r.state == Pending ||
     (r.state == Claimed &&
      (r.claimResidency < host || (r.claimResidency == host && r.claimExpires <= clock))))
  }

  predicate Beginable(r: Record, host: nat, clock: int) {
    r.state == Claimed && r.claimResidency == host && clock < r.claimExpires
  }

  /** The closer's own refusals: a live, strictly later grant, no effect, nothing disposed. */
  predicate Closable(s: State, host: nat, cmd: CommandId) {
    && host in s.hosts && s.hosts[host].grant == Some(s.journalEpoch)
    && cmd in s.records && s.records[cmd].attempt.Some?
    && s.records[cmd].attempt.value.journalEpoch < s.journalEpoch
    && !HasEffect(s.journal, cmd)
    && !IsDisposed(s.journal, cmd)
  }

  /** What each fault says of the world at the moment the settlement failed. */
  predicate FaultOk(s: State, host: nat, cmd: CommandId, fault: SettleFault)
    requires host in s.hosts && cmd in s.records && s.records[cmd].attempt.Some?
  {
    match fault
    case NoEvidence => forall v :: !HasEvidence(s.journal, cmd, s.records[cmd].attempt.value, v)
    case Unreached => true
    case FenceLost => s.hosts[host].lost
    case AckLost => Terminal(s.records[cmd].state)
    case Superseded => host < s.records[cmd].claimResidency
  }

  predicate HostIdle(s: State, host: nat) { host in s.hosts && s.hosts[host].permit.Idle? }

  predicate Writable(s: State, drive: nat) {
    drive < |s.drives| && s.drives[drive].grant == s.journalEpoch
  }

  predicate Enabled(s: State, a: Action) {
    match a
    case Accept(cmd, _) => cmd !in s.records
    case Tick(now) => s.clock <= now
    case FactoryReject(cmd) =>
      cmd in s.records && (s.records[cmd].state == Pending || s.records[cmd].state == Claimed)
    case Attach(host) => s.maxResidency < host
    case OpenJournal(host, grant) =>
      host in s.hosts && s.hosts[host].grant.None? && s.journalEpoch < grant
    case Crash(host) => host in s.hosts
    case Claim(host, cmd, revision, _) =>
      host in s.hosts && cmd in s.records && s.records[cmd].revision == revision &&
      Claimable(s.records[cmd], host, s.clock)
    case Begin(host, cmd, revision, _, _) =>
      HostIdle(s, host) && s.hosts[host].grant.Some? && cmd in s.records &&
      s.records[cmd].revision == revision && Beginable(s.records[cmd], host, s.clock)
    case Reject(host, cmd, revision) =>
      host in s.hosts && cmd in s.records && s.records[cmd].revision == revision &&
      Beginable(s.records[cmd], host, s.clock)
    case DriveRuntime(host) =>
      host in s.hosts && s.hosts[host].permit.MayDrive? && s.hosts[host].grant.Some?
    case Forgo(host) => host in s.hosts
    case RuntimeEffect(drive) => Writable(s, drive)
    case RuntimeDispose(drive, _) =>
      Writable(s, drive) && !IsDisposed(s.journal, s.drives[drive].cmd)
    case Settle(host, cmd, revision, verdict) =>
      host in s.hosts && cmd in s.records && s.records[cmd].revision == revision &&
      s.records[cmd].state == Applying && s.records[cmd].attempt.Some? &&
      s.records[cmd].claimResidency <= host &&
      HasEvidence(s.journal, cmd, s.records[cmd].attempt.value, verdict)
    case SettleFailed(host, cmd, fault) =>
      HostIdle(s, host) && cmd in s.records && s.records[cmd].attempt.Some? && FaultOk(s, host, cmd, fault)
    case LoseGrant(host) => host in s.hosts
    case Close(host, cmd) =>
      host in s.hosts && s.hosts[host].permit == MayClose(cmd) && Closable(s, host, cmd)
  }

  function Stamp(s: State, cmd: CommandId, r: Record): State {
    s.(records := s.records[cmd := r.(revision := r.revision + 1)])
  }

  function Permitting(s: State, host: nat, p: Permit): State
    requires host in s.hosts
  {
    s.(hosts := s.hosts[host := s.hosts[host].(permit := p)])
  }

  function Apply(s: State, a: Action): State
    requires Enabled(s, a)
  {
    match a
    case Accept(cmd, kind) =>
      s.(records := s.records[cmd := Record(s.maxOrder + 1, kind, Pending, 1, 0, 0, None)],
         maxOrder := s.maxOrder + 1)
    case Tick(now) => s.(clock := now)
    case FactoryReject(cmd) => Stamp(s, cmd, s.records[cmd].(state := Rejected))
    case Attach(host) => s.(hosts := s.hosts[host := Host(None, Idle, false)], maxResidency := host)
    case OpenJournal(host, grant) =>
      s.(hosts := s.hosts[host := s.hosts[host].(grant := Some(grant))], journalEpoch := grant)
    case Crash(host) => s.(hosts := s.hosts - {host})
    case Claim(host, cmd, _, expires) =>
      Stamp(s, cmd, s.records[cmd].(state := Claimed, claimResidency := host, claimExpires := expires))
    case Begin(host, cmd, _, id, acked) =>
      var t := Stamp(s, cmd, s.records[cmd].(
        state := Applying, attempt := Some(Attempt(id, s.hosts[host].grant.value, host))));
      if acked then Permitting(t, host, MayDrive(cmd, id)) else t
    case Reject(host, cmd, _) => Stamp(s, cmd, s.records[cmd].(state := Rejected))
    case DriveRuntime(host) =>
      var h := s.hosts[host];
      Permitting(s, host, Idle).(drives := s.drives + [Drive(host, h.permit.cmd, h.permit.attempt, h.grant.value)])
    case Forgo(host) => Permitting(s, host, Idle)
    case RuntimeEffect(i) =>
      var d := s.drives[i];
      s.(journal := s.journal + [Effect(d.cmd, d.attempt, d.grant)])
    case RuntimeDispose(i, what) =>
      var d := s.drives[i];
      s.(journal := s.journal + [Disposed(d.cmd, d.attempt, d.grant, what)])
    case Settle(host, cmd, _, verdict) => Stamp(s, cmd, s.records[cmd].(state := verdict))
    case SettleFailed(host, cmd, _) => Permitting(s, host, MayClose(cmd))
    case LoseGrant(host) => s.(hosts := s.hosts[host := s.hosts[host].(lost := true)])
    case Close(host, cmd) =>
      var attempt := s.records[cmd].attempt.value;
      Permitting(s, host, Idle).(
        journal := s.journal + [Closed(cmd, attempt.id, attempt.journalEpoch, s.journalEpoch)])
  }

  // ------------------------------------------------------------------------
  // Histories
  // ------------------------------------------------------------------------

  /** One step of the system. */
  predicate Step(s: State, a: Action, t: State) { Enabled(s, a) && t == Apply(s, a) }

  /** A run: the actions taken, and the states before, between and after them. */
  datatype History = History(actions: seq<Action>, states: seq<State>)

  predicate Legal(h: History) {
    && |h.states| == |h.actions| + 1
    && h.states[0] == Init()
    && forall i {:trigger h.actions[i]} :: 0 <= i < |h.actions| ==> Step(h.states[i], h.actions[i], h.states[i + 1])
  }

  function Now(h: History): State
    requires Legal(h)
  {
    h.states[|h.actions|]
  }

  predicate Extends(h: History, k: History) { h.actions <= k.actions && h.states <= k.states }

  function Extended(h: History, a: Action): (k: History)
    requires Legal(h) && Enabled(Now(h), a)
    ensures Legal(k) && Extends(h, k) && Now(k) == Apply(Now(h), a)
  {
    var k := History(h.actions + [a], h.states + [Apply(Now(h), a)]);
    assert forall i :: 0 <= i < |h.actions| ==> k.actions[i] == h.actions[i] && k.states[i + 1] == h.states[i + 1];
    k
  }
}
