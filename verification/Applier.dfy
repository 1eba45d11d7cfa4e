/**
 The disposition applier: claim, authorize one attempt, dispatch, settle from
 evidence, or recover a predecessor's attempt.  Every step is taken in the World,
 with the rest of the world running in between.
 */
module Applier {
  import opened Base
  import opened Fencing
  import opened Protocol
  import opened ProtocolSafety
  import opened World
  import opened Bodies

  /** The command as the consumer's page reported it. */
  datatype Command = Command(id: CommandId, order: nat, state: CommandState)

  /** What a Processor reports: the state observed, whether its prefix is durably owned, and any refusal. */
  datatype Answer = Answer(state: CommandState, prefixOwned: bool, refusal: Option<Refusal>)

  function Refused(state: CommandState, prefixOwned: bool, why: Refusal): Answer {
    Answer(state, prefixOwned, Some(why))
  }

  /** One Process call's private inputs: its clock, its claim's expiry, a minted identity, and the body's reads. */
  datatype Inputs = Inputs(
    now: int, expires: int, mint: Option<AttemptId>, payload: Option<Payload>, cancelled: bool, readers: Readers)

  // ------------------------------------------------------------------------
  // Why a call may refuse, said of what the world answered it since it began
  // ------------------------------------------------------------------------

  /** The revision an answer told this Host. */
  function Told(e: Event): int {
    match e
    case Loaded(record) => record.revision
    case ClaimTold(revision) => revision
    case _ => -1
  }

  /**
   A write was refused for something this call could not have known: the store failed; the record has changed since
   anything the call was told; a later residency holds the claim; or the claim the call relied on has lapsed by the
   store's clock, and was live by this Host's clock or was told in this very call.
   */
  ghost predicate Excused(log: seq<Event>, since: nat, k: nat, me: nat, now: int)
    requires since <= k < |log|
  {
    match log[k]
    case StoreFault => true
    case Conflict(edge, held, clock) =>
      || (forall j :: since <= j < k ==> Told(log[j]) < held.revision)
      || (edge.Claiming? && me < held.claimResidency)
      || (!edge.Claiming? && held.claimResidency == me && held.claimExpires <= clock &&
          (now < held.claimExpires || exists j :: since <= j < k && log[j].ClaimTold?))
    case _ => false
  }

  ghost predicate Unwritten(log: seq<Event>, since: nat, me: nat, now: int) {
    exists k :: since <= k < |log| && Excused(log, since, k, me, now)
  }

  /** The log's last answer refused an attempt or a rejection of the claim the call was told. */
  lemma ClaimExcuses(log: seq<Event>, since: nat, me: nat, now: int, claimed: Record)
    requires since < |log| && ClaimStands(log[..|log| - 1], since, me, now, claimed)
    requires Last(log).StoreFault? ||
             (Last(log).Conflict? && !Last(log).edge.Claiming? && RecordKept(claimed, Last(log).held) &&
              (Beginable(Last(log).held, me, Last(log).clock) ==> Last(log).held.revision != claimed.revision))
    ensures Unwritten(log, since, me, now)
  {
    var n := |log| - 1;
    forall j | since <= j < n ensures Told(log[j]) <= claimed.revision { assert log[j] == log[..n][j]; }
    if Last(log).Conflict? && Last(log).held == claimed && claimed.claimExpires <= now {
      var j :| since <= j < n && log[..n][j].ClaimTold?;
      assert log[j].ClaimTold?;
    }
    assert Excused(log, since, n, me, now);
  }

  /** This Host's own claim, at the revision the call was last told, live by a clock the call may trust. */
  ghost predicate ClaimStands(log: seq<Event>, since: nat, me: nat, now: int, r: Record) {
    && since <= |log|
    && r.state == Claimed && r.claimResidency == me
    && (forall j :: since <= j < |log| ==> Told(log[j]) <= r.revision)
    && (now < r.claimExpires || exists j :: since <= j < |log| && log[j].ClaimTold?)
  }

  /** The log's last answer refused a claim of the record the call was told. */
  lemma RecordExcuses(log: seq<Event>, since: nat, me: nat, now: int, told: Record)
    requires since < |log| && forall j :: since <= j < |log| - 1 ==> Told(log[j]) <= told.revision
    requires (told.state == Pending || told.state == Claimed) && told.attempt.None?
    requires Last(log).StoreFault? ||
             (Last(log).Conflict? && Last(log).edge.Claiming? && RecordKept(told, Last(log).held) &&
              !Beginable(Last(log).held, me, Last(log).clock) &&
              (Claimable(Last(log).held, me, Last(log).clock) ==> Last(log).held.revision != told.revision))
    ensures Unwritten(log, since, me, now)
  {
    assert Excused(log, since, |log| - 1, me, now);
  }

  /** The store was asked to settle, and did not, for the fault it names; or the fence kept it from being asked. */
  ghost predicate Tried(log: seq<Event>, since: nat, lost: bool, cmd: CommandId) {
    lost || exists k :: since <= k < |log| && log[k].SettledNot? && log[k].cmd == cmd
  }

  lemma TriedStays(log: seq<Event>, later: seq<Event>, since: nat, lost: bool, lostLater: bool, cmd: CommandId)
    requires log <= later && (lost ==> lostLater) && Tried(log, since, lost, cmd)
    ensures Tried(later, since, lostLater, cmd)
  {
    if !lost {
      var k :| since <= k < |log| && log[k].SettledNot? && log[k].cmd == cmd;
      assert later[k] == log[k];
    }
  }

  /** The same, diagnosed as answered; there was evidence, so the journal is not to blame, when `evidenced`. */
  ghost predicate Unsettled(log: seq<Event>, since: nat, lost: bool, cmd: CommandId, evidenced: bool, why: Refusal) {
    || (lost && why == RefusalEvidenceUnavailable)
    || exists k :: since <= k < |log| && log[k].SettledNot? && log[k].cmd == cmd &&
         (evidenced ==> !log[k].fault.NoEvidence?) &&
         why == Diagnosis(log[k].unroutable)
  }

  function Diagnosis(unroutable: bool): Refusal {
    if unroutable then RefusalEvidenceUnroutable else RefusalEvidenceUnavailable
  }

  /** The runtime was driven, and what it or the settlement after it answered is the refusal. */
  ghost predicate Undisposed(log: seq<Event>, since: nat, lost: bool, cmd: CommandId, cancelled: bool, why: Refusal) {
    exists k :: since <= k < |log| && log[k].RuntimeAnswered? && log[k].cmd == cmd &&
      match log[k].drive
      case DriveOk => Unsettled(log, k, lost, cmd, false, why)
      case DriveUnsupported => why == RefusalDispositionUnsupported
      case DriveFailed(_) => why == RefusalRuntime && (cancelled || Tried(log, k, lost, cmd))
  }

  predicate Asks(e: Event, cmd: CommandId, attempt: Attempt) {
    e.CloserCalled? && e.cmd == cmd && e.attempt == attempt
  }

  /** What a closer's answer other than success is refused as. */
  predicate Declines(answer: CloseAnswer, why: Refusal) {
    match answer
    case CloseOk => false
    case CloseNoCloser => why == RefusalNoAttemptCloser
    case CloseEnduringEffect => why == RefusalEnduringEffect
    case CloseFailed => why == RefusalStore
  }

  /** The closer was asked for this attempt: it refused as named, or a real fault then met the settlement. */
  ghost predicate Unclosed(log: seq<Event>, since: nat, lost: bool, cmd: CommandId, attempt: Attempt, why: Refusal) {
    exists k :: since <= k < |log| && Asks(log[k], cmd, attempt) &&
      (Declines(log[k].answer, why) || (log[k].answer.CloseOk? && Unsettled(log, k, lost, cmd, true, why)))
  }

  /** Why an applying record's attempt was left as it is, under this Host's grant. */
  ghost predicate Unrecovered(log: seq<Event>, since: nat, lost: bool, hasCloser: bool, cmd: CommandId,
      attempt: Option<Attempt>, grant: Option<nat>, why: Refusal)
  {
    if attempt.None? then why == RefusalUnknownState
    else
      || (why == RefusalNoJournalGrant && exists k :: since <= k < |log| && log[k].NoGrant?)
      || (grant.Some? && grant.value <= attempt.value.journalEpoch &&
          Unsettled(log, since, lost, cmd, false, why) && forall k :: since <= k < |log| ==> !log[k].CloserCalled?)
      || (grant.Some? && attempt.value.journalEpoch < grant.value && Tried(log, since, lost, cmd) &&
          (|| (!hasCloser && why == RefusalNoAttemptCloser)
           || (hasCloser && Unclosed(log, since, lost, cmd, attempt.value, why))))
  }

  /** Why a claimed command was left claimed, or its attempt undisposed. */
  ghost predicate Undispatched(log: seq<Event>, since: nat, lost: bool, me: nat, cmd: CommandId, kind: Kind,
      inputs: Inputs, why: Refusal)
  {
    if inputs.payload.None? then why == RefusalStore
    else
      match Vet(kind, inputs.payload.value, inputs.readers)
      case Block(refusal) => why == refusal
      case RejectBody => why == RefusalStore && (lost || Unwritten(log, since, me, inputs.now))
      case Dispatch(_) => Unauthorized(log, since, lost, me, cmd, inputs, why)
  }

  /** Why a vetted body led to no attempt, or its attempt to no disposition. */
  ghost predicate Unauthorized(log: seq<Event>, since: nat, lost: bool, me: nat, cmd: CommandId, inputs: Inputs,
      why: Refusal)
  {
    || (why == RefusalNoJournalGrant && exists k :: since <= k < |log| && log[k].NoGrant?)
    || (why == RefusalInvalidAttempt && inputs.mint.None?)
    || (why == RefusalStore && (lost || Unwritten(log, since, me, inputs.now)))
    || Undisposed(log, since, lost, cmd, inputs.cancelled, why)
  }

  /** Why a call that was answered this record refused. */
  ghost predicate ExplainedBy(record: Record, command: Command, inputs: Inputs, log: seq<Event>, since: nat,
      lost: bool, me: nat, hasCloser: bool, grant: Option<nat>, why: Refusal)
  {
    if record.order != command.order then why == RefusalForeignRecord
    else if record.revision == 0 then why == RefusalUnrevisionedRecord
    else if record.kind == OtherKind then why == RefusalUnsupportedKind
    else
      match record.state
      case Applied => false
      case Rejected => false
      case Applying => Unrecovered(log, since, lost, hasCloser, command.id, record.attempt, grant, why)
      case _ =>
        || (why == RefusalStore && (lost || Unwritten(log, since, me, inputs.now)))
        || Undispatched(log, since, lost, me, command.id, record.kind, inputs, why)
  }

  ghost predicate Explained(command: Command, inputs: Inputs, log: seq<Event>, since: nat, lost: bool, me: nat,
      hasCloser: bool, grant: Option<nat>, why: Refusal)
    requires since < |log|
  {
    match log[since]
    case Loaded(record) => ExplainedBy(record, command, inputs, log, since, lost, me, hasCloser, grant, why)
    case StoreFault => why == RefusalStore
    case Missing => why == RefusalStore
    case _ => false
  }

  /** A record this Host may act on, as the page reported it. */
  predicate Fits(record: Record, command: Command) {
    record.order == command.order && record.revision > 0 && record.kind != OtherKind
  }

  /** A terminal record is reported as it stands, and a durable attempt is always reported as an owned prefix. */
  ghost predicate Reported(e: Event, command: Command, answer: Answer) {
    e.Loaded? && Fits(e.record, command) ==>
      && (Terminal(e.record.state) ==> answer == Answer(e.record.state, e.record.attempt.Some?, None))
      && (e.record.state == Applying && e.record.attempt.Some? ==> answer.prefixOwned)
  }

  /** Nothing failed: every answer was what was asked for, but for a journal that says nothing of the attempt. */
  ghost predicate Faultless(log: seq<Event>, since: nat) {
    forall k :: since <= k < |log| ==>
      match log[k]
      case Loaded(_) => true
      case ClaimTold(_) => true
      case SettledNot(_, fault, _) => fault.NoEvidence?
      case RuntimeAnswered(_, drive) => drive.DriveOk?
      case CloserCalled(_, _, answer) => answer.CloseOk?
      case _ => false
  }

  /**
   With no fault, a fitting record is refused only for a body this Host may not dispatch, or because the runtime that
   was given the command, which is this Host's own, has said nothing of it yet; a predecessor's attempt never is.
   */
  lemma RefusedWithoutFault(command: Command, inputs: Inputs, log: seq<Event>, since: nat, me: nat, grant: Option<nat>,
      why: Refusal)
    requires since < |log| && Faultless(log, since) && inputs.payload.Some? && inputs.mint.Some?
    requires Explained(command, inputs, log, since, false, me, true, grant, why)
    requires Fits(log[since].record, command)
    ensures var r := log[since].record;
            || (r.state == Applying && r.attempt.None?)
            || (r.state == Applying && r.attempt.Some? && grant.Some? &&
                grant.value <= r.attempt.value.journalEpoch)
            || ((r.state == Pending || r.state == Claimed) &&
                Vet(r.kind, inputs.payload.value, inputs.readers) == Block(why))
            || ((r.state == Pending || r.state == Claimed) &&
                exists k :: since <= k < |log| && log[k] == RuntimeAnswered(command.id, DriveOk))
  {
    var r := log[since].record;
    match r.state
    case Applying =>
      if r.attempt.Some? { NeverLeft(log, since, command.id, r.attempt.value, grant, why); }
    case Pending => AlwaysWritten(log, since, me, inputs.now);
    case Claimed => AlwaysWritten(log, since, me, inputs.now);
  }

  lemma AlwaysWritten(log: seq<Event>, since: nat, me: nat, now: int)
    requires Faultless(log, since)
    ensures !Unwritten(log, since, me, now)
  {
  }

  /** With no fault, a predecessor's attempt is never left as it is. */
  lemma NeverLeft(log: seq<Event>, since: nat, cmd: CommandId, attempt: Attempt, grant: Option<nat>, why: Refusal)
    requires Faultless(log, since) && Unrecovered(log, since, false, true, cmd, Some(attempt), grant, why)
    ensures grant.Some? && grant.value <= attempt.journalEpoch
  {
  }

  class DispositionApplier {
    const me: nat // this Host's residency epoch
    const world: World
    const fence: Fence
    const hasCloser: bool

    /** Every body the runtime was driven with, beside the payload and the readers it was checked by. */
    ghost var dispatched: seq<(Kind, Payload, Readers, Bytes)>

    /** Commands the composition was told are stranded. */
    var stranded: seq<CommandId>

    constructor (me: nat, world: World, fence: Fence, hasCloser: bool)
      ensures this.me == me && this.world == world && this.fence == fence && this.hasCloser == hasCloser
      ensures dispatched == [] && stranded == []
    {
      this.me, this.world, this.fence, this.hasCloser := me, world, fence, hasCloser;
      dispatched, stranded := [], [];
    }

    ghost predicate Ready()
      reads this, world
    {
      && world.Holds(me, Idle)
      && forall d :: d in dispatched ==> Vetted(d.0, d.1, d.2, d.3)
    }

    /** What every step of a Process call promises. */
    twostate predicate Proceeded(answer: Answer, cmd: CommandId)
      reads this, world, fence
    {
      && Ready() && world.Moved(me) && (old(fence.lost) ==> fence.lost)
      && old(dispatched) <= dispatched
      // No refusal means the command is terminal in the store, in the state answered.
      && (answer.refusal.None? ==>
            Terminal(answer.state) && cmd in world.st.records && world.st.records[cmd].state == answer.state)
      // An owned prefix is a durable attempt.
      && (answer.prefixOwned ==> cmd in world.st.records && world.st.records[cmd].attempt.Some?)
    }

    ghost predicate Claims(cmd: CommandId, revision: nat, since: nat, now: int)
      reads world
    {
      && cmd in world.st.records && world.st.records[cmd].revision == revision
      && ClaimStands(world.log, since, me, now, world.st.records[cmd])
    }

    method Process(command: Command, inputs: Inputs) returns (answer: Answer)
      requires Ready() && inputs.readers.residency == me
      modifies this, world, fence
      ensures Proceeded(answer, command.id)
      // What is answered is about the record the page reported, of a kind this Host knows.
      ensures answer.refusal.None? ==>
                world.st.records[command.id].order == command.order && world.st.records[command.id].kind != OtherKind
      // Every refusal is explained by what this call was answered.
      ensures |world.log| > |old(world.log)| && Reported(world.log[|old(world.log)|], command, answer)
      ensures dispatched != old(dispatched) ==> answer.prefixOwned
      ensures answer.refusal.Some? ==>
                Explained(command, inputs, world.log, |old(world.log)|, fence.lost, me, hasCloser,
                  world.st.hosts[me].grant, answer.refusal.value)
    {
      var cmd := command.id;
      ghost var since := |world.log|;
      var loaded := world.LoadDispositionCommand(me, cmd);
      if loaded.None? { return Refused(command.state, false, RefusalStore); }
      var record := loaded.value;
      var problem := CheckRecord(record, command);
      if problem.Some? { return Refused(command.state, false, problem.value); }
      if Terminal(record.state) { return Answer(record.state, record.attempt.Some?, None); }
      if record.state == Applying {
        answer := SettleOrRecover(cmd, record, since);
      } else if record.state == Claimed && record.claimResidency == me && inputs.now < record.claimExpires {
        answer := AuthorizeAndDispatch(cmd, record, record.revision, inputs, since);
      } else {
        // Pending, another residency's claim, or this Host's own claim lapsed: claim it first.
        answer := ClaimThenDispatch(cmd, record, inputs, since);
      }
    }

    static function CheckRecord(record: Record, command: Command): Option<Refusal> {
      if record.order != command.order then Some(RefusalForeignRecord)
      else if record.revision == 0 then Some(RefusalUnrevisionedRecord)
      else if record.kind == OtherKind then Some(RefusalUnsupportedKind)
      else None
    }

    method ClaimThenDispatch(cmd: CommandId, record: Record, inputs: Inputs, ghost since: nat)
      returns (answer: Answer)
      requires Ready() && inputs.readers.residency == me
      requires cmd in world.st.records && world.st.records[cmd] == record &&
          (record.state == Pending || record.state == Claimed)
      requires since <= |world.log| && forall j :: since <= j < |world.log| ==> Told(world.log[j]) <= record.revision
      modifies this, world, fence
      ensures Proceeded(answer, cmd)
      ensures answer.refusal.Some? ==>
                || (answer.refusal.value == RefusalStore &&
                    (fence.lost || Unwritten(world.log, since, me, inputs.now)))
                || Undispatched(world.log, since, fence.lost, me, cmd, record.kind, inputs, answer.refusal.value)
      ensures dispatched != old(dispatched) ==> answer.prefixOwned
    {
      var held := fence.Held();
      if !held { return Refused(record.state, false, RefusalStore); }
      world.Invariant();
      var claimed := world.ClaimDisposition(me, cmd, record.revision, inputs.expires);
      if claimed.None? {
        RecordExcuses(world.log, since, me, inputs.now, record);
        return Refused(record.state, false, RefusalStore);
      }
      assert world.log[|world.log| - 1].ClaimTold?;
      answer := AuthorizeAndDispatch(cmd, record, claimed.value, inputs, since);
    }

    method AuthorizeAndDispatch(cmd: CommandId, record: Record, revision: nat, inputs: Inputs, ghost since: nat)
      returns (answer: Answer)
      requires Ready() && inputs.readers.residency == me && Claims(cmd, revision, since, inputs.now)
      modifies this, world, fence
      ensures Proceeded(answer, cmd)
      ensures answer.refusal.Some? ==>
                Undispatched(world.log, since, fence.lost, me, cmd, record.kind, inputs, answer.refusal.value)
      // A body no Host could apply is rejected, and only a vetted one is dispatched.
      ensures answer.refusal.None? ==> inputs.payload.Some?
      ensures answer.refusal.None? && Vet(record.kind, inputs.payload.value, inputs.readers).RejectBody? ==>
                answer == Answer(Rejected, false, None)
      ensures answer.refusal.None? && !Vet(record.kind, inputs.payload.value, inputs.readers).RejectBody? ==>
                Vet(record.kind, inputs.payload.value, inputs.readers).Dispatch? &&
                dispatched == old(dispatched) + [(record.kind, inputs.payload.value, inputs.readers,
                  Vet(record.kind, inputs.payload.value, inputs.readers).body)]
      ensures dispatched != old(dispatched) ==> answer.prefixOwned
    {
      if inputs.payload.None? { return Refused(Claimed, false, RefusalStore); }
      var payload := inputs.payload.value;
      match Vet(record.kind, payload, inputs.readers) {
        case Block(why) =>
          return Refused(Claimed, false, why);
        case RejectBody =>
          answer := RejectCommand(cmd, revision, since, inputs.now);
        case Dispatch(body) =>
          DispatchedExactlyWhenVetted(record.kind, payload, inputs.readers, body);
          var epoch, held := world.LeaseEpoch(me);
          if !held {
            assert world.log[|world.log| - 1].NoGrant?;
            return Refused(Claimed, false, RefusalNoJournalGrant);
          }
          if inputs.mint.None? { return Refused(Claimed, false, RefusalInvalidAttempt); }
          answer := Authorize(cmd, record, revision, body, inputs, since);
      }
    }

    /** Records one attempt through the fence, and drives the runtime with it. */
    method Authorize(cmd: CommandId, record: Record, revision: nat, body: Bytes, inputs: Inputs, ghost since: nat)
      returns (answer: Answer)
      requires Ready() && Claims(cmd, revision, since, inputs.now)
      requires world.st.hosts[me].grant.Some? && inputs.mint.Some?
      requires inputs.payload.Some? && Vetted(record.kind, inputs.payload.value, inputs.readers, body)
      modifies this, world, fence
      ensures Proceeded(answer, cmd)
      ensures answer.refusal.Some? ==>
                Unauthorized(world.log, since, fence.lost, me, cmd, inputs, answer.refusal.value)
      ensures dispatched == old(dispatched) ||
              dispatched == old(dispatched) + [(record.kind, inputs.payload.value, inputs.readers, body)]
      ensures answer.refusal.None? ==> dispatched != old(dispatched)
      ensures dispatched != old(dispatched) ==> answer.prefixOwned
    {
      var held := fence.Held();
      if !held { return Refused(Claimed, false, RefusalStore); }
      ghost var claimed, told := world.st.records[cmd], world.log;
      var applying := world.BeginAttempt(me, cmd, revision, inputs.mint.value);
      if applying.None? {
        assert world.log[..|world.log| - 1] == told;
        ClaimExcuses(world.log, since, me, inputs.now, claimed);
        return Refused(Claimed, false, RefusalStore);
      }
      answer := DispatchAndSettle(cmd, record, applying.value, body, inputs, since);
    }

    method RejectCommand(cmd: CommandId, revision: nat, ghost since: nat, ghost now: int) returns (answer: Answer)
      requires Ready() && Claims(cmd, revision, since, now)
      modifies world, fence
      ensures Proceeded(answer, cmd)
      ensures answer.refusal.None? ==> answer == Answer(Rejected, false, None)
      ensures answer.refusal.Some? ==>
                answer.refusal.value == RefusalStore && (fence.lost || Unwritten(world.log, since, me, now))
    {
      var held := fence.Held();
      if !held { return Refused(Claimed, false, RefusalStore); }
      ghost var claimed, told := world.st.records[cmd], world.log;
      var ok := world.RejectDisposition(me, cmd, revision);
      if !ok {
        assert world.log[..|world.log| - 1] == told;
        ClaimExcuses(world.log, since, me, now, claimed);
      }
      answer := if ok then Answer(Rejected, false, None) else Refused(Claimed, false, RefusalStore);
    }

    method DispatchAndSettle(cmd: CommandId, record: Record, applying: nat, body: Bytes, inputs: Inputs,
        ghost since: nat)
      returns (answer: Answer)
      requires inputs.mint.Some? && inputs.payload.Some?
      requires world.Holds(me, MayDrive(cmd, inputs.mint.value)) && world.st.hosts[me].grant.Some?
      requires world.Authorizes(cmd, applying) && since <= |world.log|
      requires Vetted(record.kind, inputs.payload.value, inputs.readers, body)
      requires forall d :: d in dispatched ==> Vetted(d.0, d.1, d.2, d.3)
      modifies this, world, fence
      ensures Proceeded(answer, cmd) && answer.prefixOwned
      ensures dispatched == old(dispatched) + [(record.kind, inputs.payload.value, inputs.readers, body)]
      ensures answer.refusal.Some? ==>
                Undisposed(world.log, since, fence.lost, cmd, inputs.cancelled, answer.refusal.value)
    {
      dispatched := dispatched + [(record.kind, inputs.payload.value, inputs.readers, body)];
      ghost var driving := |world.log|;
      var driven := world.ApplyCommand(me, cmd, inputs.mint.value);
      answer := AfterDispatch(cmd, record.kind, applying, driven, inputs.cancelled, driving);
      assert since <= driving;
    }

    /** What the runtime's answer leads to. */
    method AfterDispatch(cmd: CommandId, kind: Kind, applying: nat, driven: DriveAnswer, cancelled: bool,
        ghost since: nat)
      returns (answer: Answer)
      requires Ready() && world.Authorizes(cmd, applying)
      requires since < |world.log| && world.log[since] == RuntimeAnswered(cmd, driven)
      modifies this`stranded, world, fence
      ensures Proceeded(answer, cmd) && answer.prefixOwned
      ensures answer.refusal.Some? ==>
                Undisposed(world.log, since, fence.lost, cmd, cancelled, answer.refusal.value)
    {
      match driven {
        case DriveOk =>
          answer := SettleAndFinish(cmd, applying, since);
        case DriveUnsupported =>
          answer := Refused(Applying, true, RefusalDispositionUnsupported);
        case DriveFailed(prefixCommitted) =>
          answer := AfterFailedDispatch(cmd, kind, applying, prefixCommitted, cancelled, since);
      }
      assert world.log[since] == RuntimeAnswered(cmd, driven);
    }

    /** The evidence is read first: a runtime that failed the call may have disposed the command all the same. */
    method AfterFailedDispatch(cmd: CommandId, kind: Kind, applying: nat, prefixCommitted: bool, cancelled: bool,
        ghost since: nat)
      returns (answer: Answer)
      requires Ready() && world.Authorizes(cmd, applying) && since <= |world.log|
      modifies this`stranded, world, fence
      ensures Proceeded(answer, cmd) && answer.prefixOwned
      ensures answer.refusal.Some? ==>
                answer.refusal.value == RefusalRuntime && (cancelled || Tried(world.log, since, fence.lost, cmd))
      // A command is reported stranded exactly when nothing settled it, unless it is a gate answer the runtime took.
      ensures stranded == old(stranded) +
                if answer.refusal.Some? && !cancelled && !(kind == GateResponse && prefixCommitted) then [cmd] else []
    {
      if cancelled { return Refused(Applying, true, RefusalRuntime); }
      answer := SettleAndFinish(cmd, applying, since);
      if answer.refusal.None? { return; }
      if !(kind == GateResponse && prefixCommitted) {
        stranded := stranded + [cmd];
      }
      answer := Refused(Applying, true, RefusalRuntime);
    }

    /** Settles, without falling back on a closure. */
    method SettleAndFinish(cmd: CommandId, revision: nat, ghost since: nat) returns (answer: Answer)
      requires Ready() && world.Authorizes(cmd, revision) && since <= |world.log|
      modifies world, fence
      ensures Proceeded(answer, cmd) && answer.prefixOwned
      ensures answer.refusal.Some? ==>
                Unsettled(world.log, since, fence.lost, cmd, old(Evidenced(world.st, cmd)), answer.refusal.value)
    {
      ghost var fault;
      ghost var before := world.history;
      answer, fault := SettleOnce(cmd, revision, since);
      if answer.refusal.Some? {
        if Evidenced(Now(before), cmd) { EvidencedStays(before, world.history, cmd); }
        world.Finish(me);
      }
    }

    /**
     One settlement.  A refusal names its cause and leaves the closure open to the caller: with evidence, that the
     fence is lost, the store was not reached or did not answer, or a later residency holds the claim.
     */
    method SettleOnce(cmd: CommandId, revision: nat, ghost since: nat)
      returns (answer: Answer, ghost fault: SettleFault)
      requires Ready() && world.Authorizes(cmd, revision) && since <= |world.log|
      modifies world, fence
      ensures world.Moved(me) && answer.prefixOwned && world.Authorizes(cmd, revision) &&
          (old(fence.lost) ==> fence.lost)
      ensures answer.refusal.None? ==> world.Holds(me, Idle) && Terminal(answer.state) &&
                                       world.st.records[cmd].state == answer.state && world.log == old(world.log)
      ensures answer.refusal.Some? ==> world.Holds(me, MayClose(cmd)) && answer.state == Applying &&
                                       FaultOk(world.st, me, cmd, fault) && (fault.FenceLost? ==> fence.lost)
      ensures answer.refusal.Some? ==>
                Tried(world.log, since, fence.lost, cmd) &&
                Unsettled(world.log, since, fence.lost, cmd, !fault.NoEvidence?, answer.refusal.value)
      ensures forall k :: |old(world.log)| <= k < |world.log| ==> !world.log[k].CloserCalled?
    {
      var held := fence.Held();
      if !held {
        world.FencedSettle(me, cmd);
        return Refused(Applying, true, RefusalEvidenceUnavailable), FenceLost;
      }
      var settled := world.SettleDisposition(me, cmd, revision);
      match settled {
        case Settled(state) => return Answer(state, true, None), AckLost;
        case NotSettled(why, unroutable) =>
          var refusal := if unroutable then RefusalEvidenceUnroutable else RefusalEvidenceUnavailable;
          assert world.log[|world.log| - 1] == SettledNot(cmd, why, unroutable);
          return Refused(Applying, true, refusal), why;
      }
    }

    /** An applying record: settle from evidence first, and only then recover a strictly earlier grant's attempt. */
    method SettleOrRecover(cmd: CommandId, record: Record, ghost since: nat) returns (answer: Answer)
      requires Ready() && cmd in world.st.records && world.st.records[cmd] == record && record.state == Applying
      requires since <= |world.log| && forall k :: since <= k < |world.log| ==> !world.log[k].CloserCalled?
      modifies world, fence
      ensures Proceeded(answer, cmd) && (record.attempt.Some? ==> answer.prefixOwned)
      ensures answer.refusal.Some? ==>
                Unrecovered(world.log, since, fence.lost, hasCloser, cmd, record.attempt, world.st.hosts[me].grant,
                  answer.refusal.value)
    {
      if record.attempt.None? { return Refused(Applying, false, RefusalUnknownState); }
      var epoch, held := world.LeaseEpoch(me);
      if !held {
        assert world.log[|world.log| - 1].NoGrant?;
        return Refused(Applying, true, RefusalNoJournalGrant);
      }
      answer := SettleThenRecover(cmd, record.revision, record.attempt.value, epoch, since);
    }

    method SettleThenRecover(cmd: CommandId, revision: nat, attempt: Attempt, epoch: nat, ghost since: nat)
      returns (answer: Answer)
      requires Ready() && world.Authorizes(cmd, revision) && world.st.records[cmd].attempt == Some(attempt)
      requires world.st.hosts[me].grant == Some(epoch)
      requires since <= |world.log| && forall k :: since <= k < |world.log| ==> !world.log[k].CloserCalled?
      modifies world, fence
      ensures Proceeded(answer, cmd) && answer.prefixOwned
      ensures answer.refusal.Some? ==>
                Unrecovered(world.log, since, fence.lost, hasCloser, cmd, Some(attempt), Some(epoch),
                  answer.refusal.value)
    {
      ghost var fault;
      answer, fault := SettleOnce(cmd, revision, since);
      if answer.refusal.None? { return; }
      ghost var tried, lost := world.log, fence.lost;
      if epoch <= attempt.journalEpoch {
        world.Finish(me);
        return;
      }
      answer := Recover(cmd, revision, attempt, since);
      TriedStays(tried, world.log, since, lost, fence.lost, cmd);
    }

    /** The settlement failed under a strictly later grant: close the predecessor's attempt, and settle from that. */
    method Recover(cmd: CommandId, revision: nat, attempt: Attempt, ghost since: nat) returns (answer: Answer)
      requires world.Holds(me, MayClose(cmd)) && world.st.hosts[me].grant.Some? && world.Authorizes(cmd, revision)
      requires world.st.records[cmd].attempt == Some(attempt) && since <= |world.log|
      requires attempt.journalEpoch < world.st.hosts[me].grant.value
      requires forall d :: d in dispatched ==> Vetted(d.0, d.1, d.2, d.3)
      modifies world, fence
      ensures Proceeded(answer, cmd) && answer.prefixOwned
      // The closer is asked for it whenever there is one.
      ensures hasCloser ==> |old(world.log)| < |world.log| && Asks(world.log[|old(world.log)|], cmd, attempt)
      ensures answer.refusal.Some? ==>
                || (!hasCloser && answer.refusal.value == RefusalNoAttemptCloser)
                || (hasCloser && Unclosed(world.log, since, fence.lost, cmd, attempt, answer.refusal.value))
    {
      ghost var asked := |world.log|;
      var problem := CloseStranded(cmd, attempt);
      if problem.Some? { return Refused(Applying, true, problem.value); }
      ClosureIsEvidence(world.history, cmd);
      answer := SettleAndFinish(cmd, revision, asked);
    }

    method CloseStranded(cmd: CommandId, attempt: Attempt) returns (problem: Option<Refusal>)
      requires world.Holds(me, MayClose(cmd)) && world.st.hosts[me].grant.Some?
      requires cmd in world.st.records && world.st.records[cmd].attempt == Some(attempt)
      requires attempt.journalEpoch < world.st.hosts[me].grant.value
      modifies world
      ensures world.Moved(me) && world.Holds(me, Idle)
      ensures problem.None? ==> IsDisposed(world.st.journal, cmd) || IsClosed(world.st.journal, cmd)
      ensures !hasCloser ==> problem == Some(RefusalNoAttemptCloser) && world.log == old(world.log)
      ensures hasCloser ==> |world.log| == |old(world.log)| + 1 && Asks(world.log[|old(world.log)|], cmd, attempt)
      ensures hasCloser ==> (problem.None? <==> world.log[|old(world.log)|].answer.CloseOk?)
      ensures hasCloser && problem.Some? ==> Declines(world.log[|old(world.log)|].answer, problem.value)
    {
      if !hasCloser {
        world.Finish(me);
        return Some(RefusalNoAttemptCloser);
      }
      var closed := world.CloseAttempt(me, cmd, attempt);
      match closed {
        case CloseOk => problem := None;
        case CloseNoCloser => problem := Some(RefusalNoAttemptCloser);
        case CloseEnduringEffect => problem := Some(RefusalEnduringEffect);
        case CloseFailed => problem := Some(RefusalStore);
      }
    }
  }
}
