/**
 The durable world one Host's applier acts in: the command store, the runtime and
 its journal, shared with every other Host.

 Every operation first lets the rest of the world run.  What it does then is
 given by `schedule`, an arbitrary script the applier cannot see: any actions of
 any other Host, of Factory, of the clock and of every runtime, including this
 Host's own.  Callers are verified against the contracts alone, so for every
 script.
 */
module World {
  import opened Base
  import opened Protocol
  import opened ProtocolSafety

  datatype SettleAnswer = Settled(state: CommandState) | NotSettled(fault: SettleFault, unroutable: bool)
  datatype DriveAnswer = DriveOk | DriveUnsupported | DriveFailed(prefixCommitted: bool)
  datatype CloseAnswer = CloseOk | CloseNoCloser | CloseEnduringEffect | CloseFailed

  datatype Edge = Claiming | Beginning | Rejecting

  /** What a Host's calls were answered, in their order; a call that did what it was asked is not always here. */
  datatype Event =
    | Loaded(record: Record)
    | Missing                                              // the store holds no such command
    | StoreFault                                           // it was not reached, or its answer was lost
    | Conflict(edge: Edge, held: Record, clock: int)       // it compared, and this is what it held instead
    | ClaimTold(revision: nat)
    | NoGrant                                              // the runtime holds no journal grant
    | SettledNot(cmd: CommandId, fault: SettleFault, unroutable: bool)
    | RuntimeAnswered(cmd: CommandId, drive: DriveAnswer)
    | CloserCalled(cmd: CommandId, attempt: Attempt, answer: CloseAnswer)

  /** The action is taken by this Host. */
  predicate ByHost(a: Action, me: nat) {
    match a
    case Accept(_, _) => false
    case Tick(_) => false
    case FactoryReject(_) => false
    case RuntimeEffect(_) => false
    case RuntimeDispose(_, _) => false
    case _ => a.host == me
  }

  lemma OthersKeepMe(s: State, a: Action, me: nat)
    requires Enabled(s, a) && !ByHost(a, me) && me in s.hosts
    ensures me in Apply(s, a).hosts && Apply(s, a).hosts[me] == s.hosts[me]
  {
  }

  class World {
    var st: State
    ghost var history: History

    /** What this Host's own calls were answered, in order. */
    ghost var log: seq<Event>

    /** What the rest of the world does, script by script; consumed by Interfere. */
    var schedule: seq<seq<Action>>

    ghost predicate Valid()
      reads this
    {
      Legal(history) && st == Now(history)
    }

    constructor (script: seq<seq<Action>>)
      ensures Valid() && st == Init()
    {
      st, history, schedule, log := Init(), History([], [Init()]), script, [];
    }

    /** The Host is alive and holds this permit. */
    ghost predicate Holds(me: nat, p: Permit)
      reads this
    {
      Valid() && me in st.hosts && st.hosts[me].permit == p
    }

    lemma Invariant()
      requires Valid()
      ensures Inv(st)
    {
      ReachableInv(history, |history.actions|);
    }

    method Take(a: Action)
      requires Valid() && Enabled(st, a)
      modifies this`st, this`history
      ensures Valid() && Extends(old(history), history)
      ensures st == Apply(old(st), a) && Kept(old(st), st)
    {
      Invariant();
      StepKept(st, a);
      st, history := Apply(st, a), Extended(history, a);
    }

    /** Lets every other party run for as long as the script says. */
    method Interfere(me: nat)
      requires Valid() && me in st.hosts
      modifies this`st, this`history, this`schedule
      ensures Valid() && Extends(old(history), history) && Kept(old(st), st)
      ensures me in st.hosts && st.hosts[me] == old(st.hosts[me])
    {
      Invariant();
      if schedule == [] { return; }
      var script := schedule[0];
      schedule := schedule[1..];
      var i := 0;
      while i < |script|
        invariant 0 <= i <= |script|
        invariant Valid() && Extends(old(history), history) && Kept(old(st), st)
        invariant me in st.hosts && st.hosts[me] == old(st.hosts[me])
      {
        if Enabled(st, script[i]) && !ByHost(script[i], me) {
          OthersKeepMe(st, script[i], me);
          Take(script[i]);
        }
        i := i + 1;
      }
    }

    /** The world moved on legally and this Host is still in it. */
    twostate predicate Moved(me: nat)
      reads this
    {
      && Valid() && Extends(old(history), history) && Kept(old(st), st) && old(log) <= log
      && old(me in st.hosts) && me in st.hosts && st.hosts[me].grant == old(st.hosts[me].grant)
    }

    /** One action of this Host's own. */
    method Act(me: nat, a: Action)
      requires Valid() && me in st.hosts && Enabled(st, a) && ByHost(a, me) && !a.Crash? && !a.OpenJournal? &&
          !a.Attach?
      modifies this`st, this`history
      ensures Moved(me) && st == Apply(old(st), a)
    {
      Take(a);
    }

    // ----------------------------------------------------------------------
    // The store, the runtime and the closer, as this Host sees them
    // ----------------------------------------------------------------------

    method LoadDispositionCommand(me: nat, cmd: CommandId) returns (r: Option<Record>)
      requires Holds(me, Idle)
      modifies this
      ensures Moved(me) && Holds(me, Idle)
      ensures r.Some? ==> cmd in st.records && r.value == st.records[cmd] && log == old(log) + [Loaded(r.value)]
      ensures r.None? ==> log == old(log) + [StoreFault] || (log == old(log) + [Missing] && cmd !in st.records)
    {
      Interfere(me);
      if * {
        log := log + [StoreFault];
        return None;
      }
      if cmd !in st.records {
        log := log + [Missing];
        return None;
      }
      log := log + [Loaded(st.records[cmd])];
      r := Some(st.records[cmd]);
    }

    /** The write did not take: the store failed, or it compared and this is the record it held instead. */
    twostate predicate Unwritten(cmd: CommandId, edge: Edge)
      reads this
    {
      log == old(log) + [StoreFault] || log == old(log) + [Shown(cmd, edge)]
    }

    ghost function Shown(cmd: CommandId, edge: Edge): Event
      reads this
    {
      if cmd in st.records then Conflict(edge, st.records[cmd], st.clock) else Missing
    }

    /** Answers the new revision, or the stored one when this Host's live claim is replayed. */
    method ClaimDisposition(me: nat, cmd: CommandId, revision: nat, expires: int) returns (claimed: Option<nat>)
      requires Holds(me, Idle)
      modifies this
      ensures Moved(me) && Holds(me, Idle)
      ensures claimed.Some? ==> cmd in st.records && st.records[cmd].state == Claimed &&
                                st.records[cmd].claimResidency == me && st.records[cmd].revision == claimed.value &&
                                log == old(log) + [ClaimTold(claimed.value)]
      ensures claimed.None? ==> Unwritten(cmd, Claiming)
      // It is refused only for a record it cannot take, or one it was not asked for.
      ensures claimed.None? && Last(log).Conflict? ==>
                !Beginable(Last(log).held, me, Last(log).clock) &&
                (Claimable(Last(log).held, me, Last(log).clock) ==> Last(log).held.revision != revision)
    {
      Interfere(me);
      claimed := None;
      if * {
        log := log + [StoreFault];
        return;
      }
      var claim := Claim(me, cmd, revision, expires);
      if Enabled(st, claim) {
        Act(me, claim);
        if * { // committed, and the acknowledgement lost
          log := log + [StoreFault];
          return;
        }
        claimed := Some(st.records[cmd].revision);
      } else if cmd in st.records && Beginable(st.records[cmd], me, st.clock) {
        claimed := Some(st.records[cmd].revision);
      } else {
        log := log + [Shown(cmd, Claiming)];
        return;
      }
      log := log + [ClaimTold(claimed.value)];
    }

    method BeginAttempt(me: nat, cmd: CommandId, revision: nat, id: AttemptId) returns (applying: Option<nat>)
      requires Holds(me, Idle) && st.hosts[me].grant.Some?
      modifies this
      ensures Moved(me)
      ensures applying.None? ==> Holds(me, Idle) && Unwritten(cmd, Beginning)
      ensures applying.None? && Last(log).Conflict? && Beginable(Last(log).held, me, Last(log).clock) ==>
                Last(log).held.revision != revision
      ensures applying.Some? ==> Holds(me, MayDrive(cmd, id)) && Authorizes(cmd, applying.value) && log == old(log) &&
                                 st.records[cmd].attempt == Some(Attempt(id, st.hosts[me].grant.value, me))
    {
      Interfere(me);
      applying := None;
      if * {
        log := log + [StoreFault];
        return;
      }
      var acked := *;
      var begin := Begin(me, cmd, revision, id, acked);
      if !Enabled(st, begin) {
        log := log + [Shown(cmd, Beginning)];
        return;
      }
      Act(me, begin);
      if acked {
        applying := Some(st.records[cmd].revision);
      } else {
        log := log + [StoreFault];
      }
    }

    method RejectDisposition(me: nat, cmd: CommandId, revision: nat) returns (ok: bool)
      requires Holds(me, Idle)
      modifies this
      ensures Moved(me) && Holds(me, Idle)
      ensures ok ==> cmd in st.records && st.records[cmd].state == Rejected && log == old(log)
      ensures !ok ==> Unwritten(cmd, Rejecting)
      ensures !ok && Last(log).Conflict? && Beginable(Last(log).held, me, Last(log).clock) ==>
                Last(log).held.revision != revision
    {
      Interfere(me);
      ok := false;
      if * {
        log := log + [StoreFault];
        return;
      }
      var reject := Reject(me, cmd, revision);
      if Enabled(st, reject) {
        Act(me, reject);
        ok := *;
        if !ok { log := log + [StoreFault]; }
      } else {
        ok := cmd in st.records && st.records[cmd].state == Rejected;
        if !ok { log := log + [Shown(cmd, Rejecting)]; }
      }
    }

    /** Drives the runtime with the recorded attempt, and waits out the call. */
    method ApplyCommand(me: nat, cmd: CommandId, id: AttemptId) returns (r: DriveAnswer)
      requires Holds(me, MayDrive(cmd, id)) && st.hosts[me].grant.Some?
      modifies this
      ensures Moved(me) && Holds(me, Idle) && Driven(st, cmd)
      ensures log == old(log) + [RuntimeAnswered(cmd, r)]
    {
      Interfere(me);
      Act(me, DriveRuntime(me));
      assert Last(st.drives).cmd == cmd;
      ghost var driven := history;
      Interfere(me);
      ExtensionGrows(driven, history);
      DrivenGrows(Now(driven), st, cmd);
      if * { r := DriveOk; } else if * { r := DriveUnsupported; } else { var prefix := *; r := DriveFailed(prefix); }
      log := log + [RuntimeAnswered(cmd, r)];
    }

    /** The record has an attempt, and this is its revision for as long as it is applying. */
    ghost predicate Authorizes(cmd: CommandId, revision: nat)
      reads this
    {
      && cmd in st.records && st.records[cmd].attempt.Some?
      && (st.records[cmd].state == Applying ==> st.records[cmd].revision == revision)
    }

    /** The verdict the journal's evidence gives, if it has any. */
    method Evidence(cmd: CommandId) returns (v: Option<CommandState>)
      requires Valid() && cmd in st.records && st.records[cmd].attempt.Some?
      ensures v.None? ==> forall w :: !HasEvidence(st.journal, cmd, st.records[cmd].attempt.value, w)
      ensures v.Some? ==> Terminal(v.value) && HasEvidence(st.journal, cmd, st.records[cmd].attempt.value, v.value)
    {
      var a := st.records[cmd].attempt.value;
      v := if HasEvidence(st.journal, cmd, a, Applied) then Some(Applied)
           else if HasEvidence(st.journal, cmd, a, Rejected) then Some(Rejected) else None;
    }

    /**
     The store's settlement edge, once reached: a terminal record as it stands, or the evidence's verdict.  With
     evidence, only a lost answer or a later residency keeps it from answering.
     */
    method SettleEdge(me: nat, cmd: CommandId, revision: nat)
        returns (settled: Option<CommandState>, fault: SettleFault)
      requires Holds(me, Idle) && Authorizes(cmd, revision)
      modifies this`st, this`history
      ensures Moved(me) && Holds(me, Idle) && Authorizes(cmd, revision)
      ensures settled.Some? ==> Terminal(settled.value) && st.records[cmd].state == settled.value
      ensures settled.None? ==> FaultOk(st, me, cmd, fault) && !fault.Unreached? && !fault.FenceLost?
    {
      fault := AckLost;
      var acked := *;
      if !Terminal(st.records[cmd].state) {
        if me < st.records[cmd].claimResidency { return None, Superseded; }
        var verdict := Evidence(cmd);
        if verdict.None? { return None, NoEvidence; }
        EvidenceIsSettleable(history, |history.actions|, me, cmd, verdict.value);
        Act(me, Settle(me, cmd, revision, verdict.value));
      }
      settled := if acked then Some(st.records[cmd].state) else None;
    }

    /** What a failed settlement leaves open to this Host. */
    method NoteSettleFailed(me: nat, cmd: CommandId, fault: SettleFault)
      requires Holds(me, Idle) && cmd in st.records && st.records[cmd].attempt.Some? && FaultOk(st, me, cmd, fault)
      modifies this`st, this`history
      ensures Moved(me) && Holds(me, MayClose(cmd)) && st.records == old(st.records) && st.journal == old(st.journal)
      ensures FaultOk(st, me, cmd, fault)
    {
      Act(me, SettleFailed(me, cmd, fault));
    }

    /** The fence refused the write: this Host's grant is gone, and the store was not asked. */
    method FencedSettle(me: nat, cmd: CommandId)
      requires Holds(me, Idle) && cmd in st.records && st.records[cmd].attempt.Some?
      modifies this`st, this`history
      ensures Moved(me) && Holds(me, MayClose(cmd)) && st.records == old(st.records) && st.journal == old(st.journal)
      ensures FaultOk(st, me, cmd, FenceLost)
    {
      Act(me, LoseGrant(me));
      NoteSettleFailed(me, cmd, FenceLost);
    }

    /**
     Settles from evidence.  A settlement that reaches the store, is not superseded and is acknowledged settles
     whenever there is evidence; any failure names its cause and leaves this Host free to fall back on a closure.
     */
    method SettleDisposition(me: nat, cmd: CommandId, revision: nat) returns (r: SettleAnswer)
      requires Holds(me, Idle) && Authorizes(cmd, revision)
      modifies this
      ensures Moved(me) && Authorizes(cmd, revision)
      ensures r.Settled? ==> Holds(me, Idle) && Terminal(r.state) && st.records[cmd].state == r.state && log == old(log)
      ensures r.NotSettled? ==> Holds(me, MayClose(cmd)) && FaultOk(st, me, cmd, r.fault) && !r.fault.FenceLost? &&
                                log == old(log) + [SettledNot(cmd, r.fault, r.unroutable)]
      ensures r.NotSettled? && (exists v :: HasEvidence(st.journal, cmd, st.records[cmd].attempt.value, v)) ==>
                r.fault.Unreached? || r.fault.AckLost? || me < st.records[cmd].claimResidency
    {
      Interfere(me);
      var fault := Unreached;
      var reached := *;
      if reached {
        var settled;
        settled, fault := SettleEdge(me, cmd, revision);
        if settled.Some? { return Settled(settled.value); }
      }
      NoteSettleFailed(me, cmd, fault);
      var unroutable := *;
      log := log + [SettledNot(cmd, fault, unroutable)];
      r := NotSettled(fault, unroutable);
    }

    /** Asks the runtime to close a predecessor's attempt under its own, strictly later, grant. */
    method CloseAttempt(me: nat, cmd: CommandId, attempt: Attempt) returns (r: CloseAnswer)
      requires Holds(me, MayClose(cmd)) && st.hosts[me].grant.Some?
      requires cmd in st.records && st.records[cmd].attempt == Some(attempt)
      requires attempt.journalEpoch < st.hosts[me].grant.value
      modifies this
      ensures Moved(me) && Holds(me, Idle) && log == old(log) + [CloserCalled(cmd, attempt, r)]
      ensures r.CloseOk? ==> IsDisposed(st.journal, cmd) || IsClosed(st.journal, cmd)
      ensures r.CloseEnduringEffect? ==> HasEffect(st.journal, cmd)
    {
      Interfere(me);
      var refuse := *;
      if !refuse && Enabled(st, Close(me, cmd)) {
        Act(me, Close(me, cmd));
        assert st.journal[|st.journal| - 1].Closed?;
        var told := *;
        r := if told then CloseOk else CloseFailed; // written, and the answer may be lost
        log := log + [CloserCalled(cmd, attempt, r)];
        return;
      }
      r := if !refuse && (IsDisposed(st.journal, cmd) || IsClosed(st.journal, cmd)) then CloseOk
           else if HasEffect(st.journal, cmd) then CloseEnduringEffect
           else CloseFailed;
      var absent := *;
      if absent && !r.CloseOk? { r := CloseNoCloser; }
      Act(me, Forgo(me));
      log := log + [CloserCalled(cmd, attempt, r)];
    }

    /** Ends a Process call: whatever it might still have done, it will not. */
    method Finish(me: nat)
      requires Valid() && me in st.hosts
      modifies this`st, this`history
      ensures Moved(me) && Holds(me, Idle) && st.records == old(st.records) && st.journal == old(st.journal)
    {
      Act(me, Forgo(me));
    }

    /** The runtime's own journal grant, and whether it believes it still holds it. */
    method LeaseEpoch(me: nat) returns (epoch: nat, held: bool)
      requires Valid() && me in st.hosts
      modifies this`log
      ensures Moved(me) && (held ==> st.hosts[me].grant == Some(epoch))
      ensures log == if held then old(log) else old(log) + [NoGrant]
    {
      match st.hosts[me].grant {
        case None => epoch, held := 0, false;
        case Some(g) => epoch := g; held := *;
      }
      if !held { log := log + [NoGrant]; }
    }
  }
}
