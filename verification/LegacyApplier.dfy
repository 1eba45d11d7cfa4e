/**
 The legacy applier, step by step, in a session every other Host, Factory's
 reconciler, the clock and the runtime run beside.
 */
module LegacyApplier {
  import opened Base
  import opened Fencing
  import opened Recovery
  import opened Legacy

  /** The action is this Host's own. */
  predicate ByHost(a: Action, me: nat) {
    match a
    case Tick(_) => false
    case ReconcilerRejects => false
    case RuntimeAppends(_) => false
    case OtherPrefix(_, _, _) => false
    case _ => a.host == me
  }

  datatype Edge = Claiming | Entering | Completing | Rejecting

  /** What a Host's calls were answered, in their order; a write that did what it was asked is not here. */
  datatype Event =
    | Loaded(record: Record)
    | StoreFault                                           // not reached, or the answer lost
    | Found(application: Application)
    | Conflict(edge: Edge, held: Record, clock: Instant)   // the store compared, and held this record
    | NotWriter(writer: nat)                               // the journal has a later writer, or none yet
    | RuntimeFault

  /** The durable session: the command store and the journal. */
  class Session {
    var st: State
    ghost var history: History

    /** What this Host's own calls were answered. */
    ghost var log: seq<Event>

    /** What the rest of the world does, script by script; an applier cannot see it. */
    var schedule: seq<seq<Action>>

    ghost predicate Valid()
      reads this
    {
      Legal(history) && st == Now(history)
    }

    constructor (s: State, script: seq<seq<Action>>)
      requires Initial(s)
      ensures Valid() && st == s
    {
      st, history, schedule, log := s, History([], [s]), script, [];
    }

    ghost predicate Holds(me: nat, m: Memory)
      reads this
    {
      Valid() && me in st.hosts && st.hosts[me] == m
    }

    twostate predicate Moved()
      reads this
    {
      Valid() && Extends(old(history), history) && old(log) <= log
    }

    lemma Invariant()
      requires Valid()
      ensures Inv(st)
    {
      ReachableInv(history, |history.actions|);
    }

    method Take(a: Action)
      requires Valid() && Enabled(st, a)
      modifies this`st, this`history
      ensures Moved() && st == Apply(old(st), a)
    {
      st, history := Apply(st, a), Extended(history, a);
    }

    /** Lets everyone else run for as long as the script says. */
    method Interfere(me: nat)
      requires Valid() && me in st.hosts
      modifies this`st, this`history, this`schedule
      ensures Moved() && me in st.hosts && st.hosts[me] == old(st.hosts[me])
    {
      Invariant();
      if schedule == [] { return; }
      var script := schedule[0];
      schedule := schedule[1..];
      var i := 0;
      while i < |script|
        invariant 0 <= i <= |script|
        invariant Moved() && me in st.hosts && st.hosts[me] == old(st.hosts[me])
        invariant 0 < me <= st.maxEpoch
      {
        if Enabled(st, script[i]) && !ByHost(script[i], me) { Take(script[i]); }
        i := i + 1;
      }
    }

    /** The write did not take: the store failed, or it compared, and this is what it held. */
    twostate predicate Unwritten(edge: Edge)
      reads this
    {
      log == old(log) + [StoreFault] || log == old(log) + [Conflict(edge, st.record, st.clock)]
    }

    method LoadCommand(me: nat) returns (r: Option<Record>)
      requires Holds(me, Idle)
      modifies this
      ensures Moved()
      ensures r.None? ==> Holds(me, Idle) && log == old(log) + [StoreFault]
      ensures r.Some? ==> r.value == st.record && Holds(me, if Terminal(r.value.state) then Idle else Saw(r.value)) &&
                          log == old(log) + [Loaded(r.value)]
    {
      Interfere(me);
      if * {
        log := log + [StoreFault];
        return None;
      }
      r := Some(st.record);
      log := log + [Loaded(st.record)];
      if !Terminal(st.record.state) { Take(Read(me)); }
    }

    /** What the journal proves, and with it what the decision at this instant licenses. */
    method Correlate(me: nat, record: Record, now: Instant) returns (found: Option<Application>)
      requires Holds(me, Saw(record))
      modifies this
      ensures Moved()
      ensures found.None? ==> Holds(me, Idle) && log == old(log) + [StoreFault]
      ensures found.Some? ==> Holds(me, Licence(Plan(record, found.value, me, now), record, found.value)) &&
                              log == old(log) + [Found(found.value)]
    {
      Interfere(me);
      if * {
        Take(Forgo(me));
        log := log + [StoreFault];
        return None;
      }
      found := Some(FindApplication(st.journal, record));
      log := log + [Found(found.value)];
      Take(Decide(me, now));
    }

    method ClaimCommand(me: nat, revision: nat, expires: Instant) returns (claimed: Option<nat>)
      requires Holds(me, Idle)
      modifies this
      ensures Moved() && Holds(me, if claimed.Some? then Holding(claimed.value) else Idle)
      ensures if claimed.Some? then log == old(log) else Unwritten(Claiming)
      // It is refused only for a record it cannot take, or one it was not asked for.
      ensures claimed.None? && Last(log).Conflict? ==>
                !Claimable(Last(log).held, me, Last(log).clock) || Last(log).held.revision != revision
    {
      Interfere(me);
      var acked := *;
      claimed := None;
      if * {
        log := log + [StoreFault];
        return;
      }
      if Enabled(st, ClaimIt(me, revision, expires, acked)) {
        Take(ClaimIt(me, revision, expires, acked));
        if acked { claimed := Some(st.record.revision); } else { log := log + [StoreFault]; }
      } else {
        log := log + [Conflict(Claiming, st.record, st.clock)];
      }
    }

    method EnterApplying(me: nat, revision: nat, expires: Instant) returns (applying: Option<nat>)
      requires Holds(me, Holding(revision))
      modifies this
      ensures Moved() && Holds(me, if applying.Some? then MayAppend(applying.value) else Idle)
      ensures if applying.Some? then log == old(log) else Unwritten(Entering)
      ensures applying.None? && Last(log).Conflict? ==>
                var r := Last(log).held;
                r.revision != revision || r.state != Claimed || r.claimEpoch != me || r.claimExpires <= Last(log).clock
    {
      Interfere(me);
      var acked, reached := *, *;
      applying := None;
      if reached && Enabled(st, BeginApplying(me, expires, acked)) {
        Take(BeginApplying(me, expires, acked));
        if acked { applying := Some(st.record.revision); } else { log := log + [StoreFault]; }
      } else {
        log := log + [if reached then Conflict(Entering, st.record, st.clock) else StoreFault];
        Take(Forgo(me));
      }
    }

    method AppendApplicationPrefix(me: nat, revision: nat) returns (ok: bool)
      requires Holds(me, MayAppend(revision))
      modifies this
      ensures Moved() && Holds(me, if ok then MayDrive(revision) else Idle)
      ensures if ok then log == old(log)
              else log == old(log) + [StoreFault] ||
                   exists w :: log == old(log) + [NotWriter(w)] && (w != me || w == 0)
    {
      Interfere(me);
      var acked, reached := *, *;
      ok := false;
      if reached && Enabled(st, AppendPrefix(me, acked)) {
        Take(AppendPrefix(me, acked));
        ok := acked;
        if !acked { log := log + [StoreFault]; }
      } else {
        log := log + [if reached then NotWriter(TheWalk(st).superseding) else StoreFault];
        Take(Forgo(me));
      }
    }

    method ApplyCommand(me: nat, revision: nat) returns (ok: bool)
      requires Holds(me, MayDrive(revision))
      modifies this
      ensures Moved() && Holds(me, Driven(revision))
      ensures log == if ok then old(log) else old(log) + [RuntimeFault]
    {
      Interfere(me);
      Take(DriveRuntime(me));
      Interfere(me);
      ok := *;
      if !ok { log := log + [RuntimeFault]; }
    }

    method ReadBack(me: nat, revision: nat) returns (found: Option<Application>)
      requires Holds(me, Driven(revision))
      modifies this
      ensures Moved()
      ensures Holds(me, if found.Some? && found.value.outcome.Committed?
          then MayComplete(revision, found.value.effectSeq) else Idle)
      ensures log == old(log) + [if found.Some? then Found(found.value) else StoreFault]
    {
      Interfere(me);
      if * {
        Take(Forgo(me));
        log := log + [StoreFault];
        return None;
      }
      found := Some(FindApplication(st.journal, st.record));
      Take(Confirm(me));
      log := log + [Found(found.value)];
    }

    method CompleteCommand(me: nat, revision: nat, effectSeq: nat) returns (ok: bool)
      requires Holds(me, MayComplete(revision, effectSeq))
      modifies this
      ensures Moved() && Holds(me, Idle) && TheWalk(st).outcome == Committed
      ensures ok ==> st.record.state == Applied && st.effect == Some(effectSeq) && log == old(log)
      ensures !ok ==> Unwritten(Completing)
      ensures !ok && Last(log).Conflict? ==> Last(log).held.revision != revision || Last(log).held.state != Applying
    {
      Interfere(me);
      Invariant();
      assert MemoryOk(st, me, st.hosts[me]);
      var reached := *;
      ok := false;
      if reached && Enabled(st, CompleteIt(me)) {
        Take(CompleteIt(me));
        ok := *; // the acknowledgement may be lost
        if !ok { log := log + [StoreFault]; }
      } else {
        log := log + [if reached then Conflict(Completing, st.record, st.clock) else StoreFault];
        Take(Forgo(me));
      }
    }

    method RejectCommand(me: nat, revision: nat) returns (ok: bool)
      requires Holds(me, Holding(revision)) || Holds(me, MayReject(revision))
      modifies this
      ensures Moved() && Holds(me, Idle)
      ensures ok ==> st.record.state == Rejected && log == old(log)
      ensures !ok ==> Unwritten(Rejecting)
      ensures !ok && Last(log).Conflict? ==> Last(log).held.revision != revision || Terminal(Last(log).held.state)
    {
      Interfere(me);
      var reached := *;
      ok := false;
      if reached && Enabled(st, RejectIt(me)) {
        Take(RejectIt(me));
        ok := *;
        if !ok { log := log + [StoreFault]; }
      } else {
        log := log + [if reached then Conflict(Rejecting, st.record, st.clock) else StoreFault];
        Take(Forgo(me));
      }
    }

    method GiveUp(me: nat)
      requires Valid() && me in st.hosts
      modifies this`st, this`history
      ensures Moved() && Holds(me, Idle) && st.record == old(st.record) && st.journal == old(st.journal)
    {
      Take(Forgo(me));
    }
  }

  /** The private body: at most one of its two forms is set in a well-formed one. */
  datatype Payload = Payload(bytes: nat, referenced: bool)

  function CheckPayload(kind: Kind, p: Payload): Option<Refusal> {
    if p.bytes > 0 && p.referenced then Some(MissingPayload)
    else if (kind == Input || kind == GateResponse) && p.bytes == 0 && !p.referenced then Some(MissingPayload)
    else None
  }

  /** The release-race backstop: unreadable, resumable here, or durably not. */
  datatype GateCheck = GateUnreadable | GateResumable | GateNotResumable

  /** One call's private inputs: its clock and expiries, the payload's read and the gate's. */
  datatype Inputs = Inputs(now: Instant, claimExpires: Instant, applyExpires: Instant, payload: Option<Payload>,
      gate: GateCheck)

  datatype Answer = Answer(state: CommandState, prefixOwned: bool, refusal: Option<Refusal>)

  function Refused(state: CommandState, prefixOwned: bool,
      why: Refusal): Answer { Answer(state, prefixOwned, Some(why)) }

  // ------------------------------------------------------------------------
  // Why a call may refuse, said of what it was answered; `after` is past its record and its evidence
  // ------------------------------------------------------------------------

  /**
   The claim of the record it was told was refused: that had changed, or by the store's clock it cannot be claimed.
   */
  ghost predicate Unclaimed(log: seq<Event>, after: nat, me: nat, told: Record) {
    exists k :: after <= k < |log| &&
      match log[k]
      case StoreFault => true
      case Conflict(edge, held, clock) =>
        edge.Claiming? && (held != told || held.deadline <= clock ||
            (held.claimEpoch == me && clock < held.claimExpires))
      case _ => false
  }

  /** A later write did not take. */
  ghost predicate Unwritten(log: seq<Event>, after: nat) {
    exists k :: after <= k < |log| &&
      (log[k].StoreFault? || log[k].NotWriter? || (log[k].Conflict? && !log[k].edge.Claiming?))
  }

  /** The completion of a committed effect did not take, or the effect names no event. */
  ghost predicate Uncompleted(log: seq<Event>, after: nat, effectSeq: nat, why: Refusal) {
    (effectSeq == 0 && why == InvalidEffect) || (effectSeq > 0 && why == StoreFailed && Unwritten(log, after))
  }

  /** Entering applying, the prefix, the runtime, its evidence or the completion failed, as named. */
  ghost predicate Undriven(log: seq<Event>, after: nat, lost: bool, why: Refusal) {
    || (why == StoreFailed && (lost || Unwritten(log, after)))
    || (why == StaleEpoch && lost)
    || (why == RuntimeFailed && exists k :: after <= k < |log| && log[k].RuntimeFault?)
    || (exists k :: after <= k < |log| && log[k].Found? &&
          if log[k].application.outcome.Committed? then Uncompleted(log, k, log[k].application.effectSeq, why)
          else why == NoCommittedEffect)
  }

  /** A well-formed payload has at most one form, and one at all where its kind needs it. */
  predicate BadPayload(kind: Kind, p: Payload) {
    (p.bytes > 0 && p.referenced) || (p.bytes == 0 && !p.referenced && (kind == Input || kind == GateResponse))
  }

  /** Why an applying record of this Host's own was not driven to its end. */
  ghost predicate Unredriven(log: seq<Event>, after: nat, lost: bool, kind: Kind, inputs: Inputs, why: Refusal) {
    if inputs.payload.None? then why == StoreFailed
    else if BadPayload(kind, inputs.payload.value) then why == MissingPayload
    else Undriven(log, after, lost, why)
  }

  /** Why a claimed record was not. */
  ghost predicate Unapplied(log: seq<Event>, after: nat, lost: bool, kind: Kind, inputs: Inputs, why: Refusal) {
    if kind == GateResponse && inputs.payload.Some? && !BadPayload(kind, inputs.payload.value) &&
        !inputs.gate.GateResumable? then
      if inputs.gate.GateUnreadable? then why == UnreadableGateResponse
      else why == StoreFailed && (lost || Unwritten(log, after))
    else Unredriven(log, after, lost, kind, inputs, why)
  }

  /** Why the decided step was not carried out. */
  ghost predicate Uncarried(log: seq<Event>, after: nat, lost: bool, me: nat, record: Record, found: Application,
      inputs: Inputs, why: Refusal)
  {
    match Plan(record, found, me, inputs.now)
    case Refuse(refusal) => why == refusal
    case Do(Complete) => Uncompleted(log, after, found.effectSeq, why)
    case Do(RejectAbandoned) => why == StoreFailed && (lost || Unwritten(log, after))
    case Do(ApplyUnderHeldClaim) => Unapplied(log, after, lost, record.kind, inputs, why)
    case Do(DriveApplyingRecord) => Unredriven(log, after, lost, record.kind, inputs, why)
    case Do(ClaimFirst) =>
      || (why == StoreFailed && (lost || Unclaimed(log, after, me, record)))
      || Unapplied(log, after, lost, record.kind, inputs, why)
  }

  /** Why a record that fits was not settled, by what the journal proved at this place in the log. */
  ghost predicate Undecided(log: seq<Event>, at: nat, lost: bool, me: nat, record: Record, inputs: Inputs, why: Refusal)
  {
    && at < |log|
    && match log[at]
       case StoreFault => why == StoreFailed
       case Found(found) => Uncarried(log, at + 1, lost, me, record, found, inputs, why)
       case _ => false
  }

  /** Every refusal, by what was loaded, what the journal proved, and what happened after that. */
  ghost predicate Explained(log: seq<Event>, since: nat, lost: bool, me: nat, order: nat, inputs: Inputs, why: Refusal)
    requires since < |log|
  {
    match log[since]
    case StoreFault => why == StoreFailed
    case Loaded(r) =>
      if r.order != order then why == ForeignRecord
      else if r.revision == 0 then why == UnrevisionedRecord
      else if r.runtime == 0 then why == Correlation
      else !Terminal(r.state) && Undecided(log, since + 1, lost, me, r, inputs, why)
    case _ => false
  }

  /** What is settled is what was decided: a rejection for an abandoned application or a gate no longer resumable. */
  ghost predicate SettlesAs(record: Record, found: Application, me: nat, inputs: Inputs, state: CommandState) {
    match Plan(record, found, me, inputs.now)
    case Refuse(_) => false
    case Do(Complete) => state != Rejected
    case Do(RejectAbandoned) => state == Rejected
    case Do(DriveApplyingRecord) => state != Rejected
    case Do(_) => state == Rejected <==> (record.kind == GateResponse && inputs.gate.GateNotResumable?)
  }

  ghost predicate Decided(log: seq<Event>, at: nat, me: nat, record: Record, inputs: Inputs, state: CommandState) {
    at < |log| && log[at].Found? && SettlesAs(record, log[at].application, me, inputs, state)
  }

  /** What a silent answer is about. */
  ghost predicate Settled(log: seq<Event>, since: nat, me: nat, order: nat, inputs: Inputs, state: CommandState)
    requires since < |log|
  {
    && log[since].Loaded? && log[since].record.order == order
    && (if Terminal(log[since].record.state) then state == log[since].record.state
        else Decided(log, since + 1, me, log[since].record, inputs, state))
  }

  class Applier {
    const me: nat // this Host's lease epoch
    const session: Session
    const fence: Fence

    constructor (me: nat, session: Session, fence: Fence)
      ensures this.me == me && this.session == session && this.fence == fence
    {
      this.me, this.session, this.fence := me, session, fence;
    }

    /**
     What every call promises: without a refusal the command is terminal in the store, in the state answered,
     or its effect is committed and the grant is gone.
     */
    ghost predicate Answers(a: Answer)
      reads session, fence
    {
      && session.Holds(me, Idle)
      && (a.refusal.None? ==>
            || (Terminal(a.state) && session.st.record.state == a.state)
            || (fence.lost && a == Answer(Applying, true, None) && TheWalk(session.st).outcome == Committed))
    }

    method Process(order: nat, pageState: CommandState, inputs: Inputs) returns (answer: Answer)
      requires session.Holds(me, Idle)
      modifies session, fence
      ensures session.Moved() && Answers(answer) && (old(fence.lost) ==> fence.lost)
      ensures |session.log| > |old(session.log)|
      ensures answer.refusal.Some? ==>
                Explained(session.log, |old(session.log)|, fence.lost, me, order, inputs, answer.refusal.value)
      ensures answer.refusal.None? ==>
                Settled(session.log, |old(session.log)|, me, order, inputs, answer.state)
    {
      ghost var since := |session.log|;
      var loaded := session.LoadCommand(me);
      if loaded.None? { return Refused(pageState, false, StoreFailed); }
      var record := loaded.value;
      assert session.log[since] == Loaded(record);
      var problem := CheckRecord(record, order);
      if problem.Some? {
        session.GiveUp(me);
        return Refused(pageState, false, problem.value);
      }
      if Terminal(record.state) { return Answer(record.state, false, None); }
      answer := Correlated(record, inputs, since);
    }

    /** What the journal proves, and the step decided on it. */
    method Correlated(record: Record, inputs: Inputs, ghost since: nat) returns (answer: Answer)
      requires session.Holds(me, Saw(record)) && |session.log| == since + 1 && !Terminal(record.state)
      modifies session, fence
      ensures session.Moved() && Answers(answer) && (old(fence.lost) ==> fence.lost)
      ensures answer.refusal.Some? ==>
                Undecided(session.log, since + 1, fence.lost, me, record, inputs, answer.refusal.value)
      ensures answer.refusal.None? ==> Decided(session.log, since + 1, me, record, inputs, answer.state)
    {
      var found := session.Correlate(me, record, inputs.now);
      if found.None? { return Refused(record.state, false, StoreFailed); }
      assert session.log[since + 1] == Found(found.value);
      answer := Carry(record, found.value, inputs, since + 2);
    }

    /** Carries out the decision. */
    method Carry(record: Record, found: Application, inputs: Inputs, ghost after: nat) returns (answer: Answer)
      requires session.Holds(me, Licence(Plan(record, found, me, inputs.now), record, found))
      requires after <= |session.log| && !Terminal(record.state)
      modifies session, fence
      ensures session.Moved() && Answers(answer) && (old(fence.lost) ==> fence.lost)
      ensures answer.refusal.Some? ==>
                Uncarried(session.log, after, fence.lost, me, record, found, inputs, answer.refusal.value)
      ensures answer.refusal.None? ==> SettlesAs(record, found, me, inputs, answer.state)
    {
      match Plan(record, found, me, inputs.now) {
        case Refuse(why) => answer := Refused(record.state, found.HasPrefix(), why);
        case Do(step) =>
          match step {
            case Complete => answer := Finish(record.revision, found, after);
            case RejectAbandoned => answer := Reject(record.state, record.revision, after);
            case ApplyUnderHeldClaim => answer := ApplyClaimed(record, record.revision, inputs, after);
            case DriveApplyingRecord => answer := Redrive(record, inputs, after);
            case ClaimFirst => answer := ClaimThenApply(record, found, inputs, after);
          }
      }
    }

    static function CheckRecord(r: Record, order: nat): Option<Refusal> {
      if r.order != order then Some(ForeignRecord)
      else if r.revision == 0 then Some(UnrevisionedRecord)
      else if r.runtime == 0 then Some(Correlation)
      else None
    }

    method ClaimThenApply(record: Record, ghost found: Application, inputs: Inputs, ghost after: nat)
      returns (answer: Answer)
      requires session.Holds(me, Idle) && after <= |session.log|
      requires Plan(record, found, me, inputs.now) == Do(ClaimFirst) && !Terminal(record.state)
      modifies session, fence
      ensures session.Moved() && Answers(answer) && (old(fence.lost) ==> fence.lost)
      ensures answer.refusal.Some? ==>
                || (answer.refusal.value == StoreFailed &&
                    (fence.lost || Unclaimed(session.log, after, me, record)))
                || Unapplied(session.log, after, fence.lost, record.kind, inputs, answer.refusal.value)
      ensures answer.refusal.None? ==>
                (answer.state == Rejected <==> record.kind == GateResponse && inputs.gate.GateNotResumable?)
    {
      var held := fence.Held();
      if !held { return Refused(record.state, false, StoreFailed); }
      var claimed := session.ClaimCommand(me, record.revision, inputs.claimExpires);
      if claimed.None? {
        assert Last(session.log) == session.log[|session.log| - 1];
        return Refused(record.state, false, StoreFailed);
      }
      answer := ApplyClaimed(record, claimed.value, inputs, after);
    }

    /** Revalidates a claimed command, enters applying, and drives it. */
    method ApplyClaimed(record: Record, revision: nat, inputs: Inputs, ghost after: nat) returns (answer: Answer)
      requires session.Holds(me, Holding(revision)) && after <= |session.log|
      modifies session, fence
      ensures session.Moved() && Answers(answer) && (old(fence.lost) ==> fence.lost)
      ensures answer.refusal.Some? ==>
                Unapplied(session.log, after, fence.lost, record.kind, inputs, answer.refusal.value)
      ensures answer.refusal.None? ==>
                (answer.state == Rejected <==> record.kind == GateResponse && inputs.gate.GateNotResumable?)
    {
      var problem := if inputs.payload.None? then Some(StoreFailed)
          else CheckPayload(record.kind, inputs.payload.value);
      if problem.None? && record.kind == GateResponse &&
          inputs.gate.GateUnreadable? { problem := Some(UnreadableGateResponse); }
      if problem.Some? {
        session.GiveUp(me);
        return Refused(Claimed, false, problem.value);
      }
      if record.kind == GateResponse && inputs.gate.GateNotResumable? {
        answer := Reject(record.state, revision, after);
        return;
      }
      answer := Enter(revision, inputs, after);
    }

    /** Enters applying under the claim, and drives the command. */
    method Enter(revision: nat, inputs: Inputs, ghost after: nat) returns (answer: Answer)
      requires session.Holds(me, Holding(revision)) && after <= |session.log|
      modifies session, fence
      ensures session.Moved() && Answers(answer) && (old(fence.lost) ==> fence.lost)
      ensures answer.refusal.Some? ==> Undriven(session.log, after, fence.lost, answer.refusal.value)
      ensures answer.refusal.None? ==> answer.state != Rejected
    {
      var held := fence.Held();
      if !held {
        session.GiveUp(me);
        return Refused(Claimed, false, StoreFailed);
      }
      var applying := session.EnterApplying(me, revision, inputs.applyExpires);
      if applying.None? {
        assert Last(session.log) == session.log[|session.log| - 1];
        return Refused(Claimed, false, StoreFailed);
      }
      answer := DriveWithPayload(applying.value, after);
    }

    /** Continues an applying record this applier owns, without entering applying again. */
    method Redrive(record: Record, inputs: Inputs, ghost after: nat) returns (answer: Answer)
      requires session.Holds(me, MayAppend(record.revision)) && after <= |session.log|
      modifies session, fence
      ensures session.Moved() && Answers(answer) && (old(fence.lost) ==> fence.lost)
      ensures answer.refusal.Some? ==>
                Unredriven(session.log, after, fence.lost, record.kind, inputs, answer.refusal.value)
      ensures answer.refusal.None? ==> answer.state != Rejected
    {
      var problem := if inputs.payload.None? then Some(StoreFailed)
          else CheckPayload(record.kind, inputs.payload.value);
      if problem.Some? {
        session.GiveUp(me);
        return Refused(Applying, false, problem.value);
      }
      answer := DriveWithPayload(record.revision, after);
    }

    /** The prefix before the effect, the fence before the runtime, and the journal's evidence after it. */
    method DriveWithPayload(revision: nat, ghost after: nat) returns (answer: Answer)
      requires session.Holds(me, MayAppend(revision)) && after <= |session.log|
      modifies session, fence
      ensures session.Moved() && Answers(answer) && (old(fence.lost) ==> fence.lost)
      ensures answer.refusal.Some? ==> Undriven(session.log, after, fence.lost, answer.refusal.value)
      ensures answer.refusal.None? ==> answer.state != Rejected
    {
      var held := fence.Held();
      if !held {
        session.GiveUp(me);
        return Refused(Applying, false, StoreFailed);
      }
      var ok := session.AppendApplicationPrefix(me, revision);
      if !ok {
        assert Last(session.log) == session.log[|session.log| - 1];
        return Refused(Applying, false, StoreFailed);
      }
      held := fence.Held();
      if !held {
        session.GiveUp(me);
        return Refused(Applying, true, StaleEpoch);
      }
      answer := Drive(revision, after);
    }

    method Drive(revision: nat, ghost after: nat) returns (answer: Answer)
      requires session.Holds(me, MayDrive(revision)) && after <= |session.log|
      modifies session, fence
      ensures session.Moved() && Answers(answer) && (old(fence.lost) ==> fence.lost)
      ensures answer.refusal.Some? ==> Undriven(session.log, after, fence.lost, answer.refusal.value)
      ensures answer.refusal.None? ==> answer.state != Rejected
    {
      var ok := session.ApplyCommand(me, revision);
      if !ok {
        assert session.log[|session.log| - 1].RuntimeFault?;
        session.GiveUp(me);
        return Refused(Applying, true, RuntimeFailed);
      }
      answer := Settle(revision, after);
    }

    method Settle(revision: nat, ghost after: nat) returns (answer: Answer)
      requires session.Holds(me, Driven(revision)) && after <= |session.log|
      modifies session, fence
      ensures session.Moved() && Answers(answer) && (old(fence.lost) ==> fence.lost)
      ensures answer.refusal.Some? ==> Undriven(session.log, after, fence.lost, answer.refusal.value)
      ensures answer.refusal.None? ==> answer.state != Rejected
    {
      ghost var reading := |session.log|;
      var found := session.ReadBack(me, revision);
      assert session.log[reading] == if found.Some? then Found(found.value) else StoreFault;
      if found.None? { return Refused(Applying, true, StoreFailed); }
      if !found.value.outcome.Committed? { return Refused(Applying, found.value.HasPrefix(), NoCommittedEffect); }
      answer := Finish(revision, found.value, reading);
      assert session.log[reading] == Found(found.value);
    }

    /** A failed completion is silent only when the grant is gone. */
    method Finish(revision: nat, found: Application, ghost after: nat) returns (answer: Answer)
      requires session.Holds(me, MayComplete(revision, found.effectSeq)) && after <= |session.log|
      modifies session, fence
      ensures session.Moved() && Answers(answer) && (old(fence.lost) ==> fence.lost)
      ensures answer.refusal.None? ==> answer.state == Applied || (answer.state == Applying && fence.lost)
      ensures answer.refusal.Some? ==> Uncompleted(session.log, after, found.effectSeq, answer.refusal.value)
    {
      if found.effectSeq == 0 {
        session.GiveUp(me);
        return Refused(Applying, true, InvalidEffect);
      }
      var held := fence.Held();
      if !held {
        session.Invariant();
        assert MemoryOk(session.st, me, session.st.hosts[me]);
        session.GiveUp(me);
        return Answer(Applying, true, None);
      }
      var ok := session.CompleteCommand(me, revision, found.effectSeq);
      if ok { return Answer(Applied, false, None); }
      assert Last(session.log) == session.log[|session.log| - 1];
      held := fence.Held();
      answer := if held then Refused(Applying, true, StoreFailed) else Answer(Applying, true, None);
    }

    method Reject(state: CommandState, revision: nat, ghost after: nat) returns (answer: Answer)
      requires session.Holds(me, Holding(revision)) || session.Holds(me, MayReject(revision))
      requires after <= |session.log|
      modifies session, fence
      ensures session.Moved() && Answers(answer) && (old(fence.lost) ==> fence.lost)
      ensures answer.refusal.None? ==> answer.state == Rejected && session.st.record.state == Rejected
      ensures answer.refusal.Some? ==>
                answer.refusal.value == StoreFailed && (fence.lost || Unwritten(session.log, after))
    {
      var held := fence.Held();
      if !held {
        session.GiveUp(me);
        return Refused(state, false, StoreFailed);
      }
      var ok := session.RejectCommand(me, revision);
      if !ok { assert Last(session.log) == session.log[|session.log| - 1]; }
      answer := if ok then Answer(Rejected, false, None) else Refused(state, false, StoreFailed);
    }
  }
}
