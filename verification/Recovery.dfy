/**
 The legacy applier's recovery decision: what to do with one non-terminal record,
 from the durable record, what the journal proves about its application, and one
 instant.
 */
module Recovery {
  import opened Base

  type RuntimeId = nat
  type Instant = nat // the zero instant is the earliest one

  datatype Record = Record(
    id: CommandId, order: nat, runtime: RuntimeId, kind: Kind, state: CommandState, revision: nat,
    deadline: Instant, claimEpoch: nat, claimExpires: Instant)

  datatype Outcome = Absent | Committed | Abandoned | Unresolved | Conflicted | UnknownOutcome

  /** What one session's journal proves about one command. */
  datatype Application = Application(
    id: CommandId, runtime: RuntimeId, outcome: Outcome, prefixEpoch: nat, effectSeq: nat, superseding: nat)
  {
    predicate HasPrefix() { !outcome.Absent? }

    predicate ProvesNoEffect() { outcome.Absent? || outcome.Abandoned? }

    /** A writer at this epoch can no longer append. */
    predicate Fences(epoch: nat) { epoch < superseding }
  }

  datatype Refusal =
    | StaleEpoch | ClaimHeld | DeadlinePassed | UnsupportedKind | UnresolvedApplication
    | UnfencedApplier | Correlation
    | ForeignRecord | UnrevisionedRecord | StoreFailed | MissingPayload | UnreadableGateResponse
    | RuntimeFailed | NoCommittedEffect | InvalidEffect

  datatype Step = ClaimFirst | ApplyUnderHeldClaim | DriveApplyingRecord | Complete | RejectAbandoned

  datatype Decision = Do(step: Step) | Refuse(why: Refusal)

  /** Refuses a correlation that is about something other than this record. */
  function CheckApplication(r: Record, a: Application, epoch: nat): Option<Refusal> {
    if a.outcome.UnknownOutcome? then Some(UnresolvedApplication)
    else if a.outcome.Conflicted? then Some(Correlation)
    else if !a.HasPrefix() then None
    else if a.id != r.id then Some(Correlation)
    else if a.runtime != r.runtime then Some(Correlation)
    else if epoch < a.prefixEpoch then Some(StaleEpoch)
    else None
  }

  function Plan(r: Record, a: Application, epoch: nat, now: Instant): Decision {
    if epoch < r.claimEpoch then Refuse(StaleEpoch)
    else if a.Fences(epoch) then Refuse(StaleEpoch)
    else
      var problem := CheckApplication(r, a, epoch);
      if problem.Some? then Refuse(problem.value)
      else if a.outcome.Committed? then
        if r.state != Applying then Refuse(Correlation) else Do(Complete)
      else
        var claimLive := now < r.claimExpires;
        if claimLive && r.claimEpoch != epoch then Refuse(ClaimHeld)
        else if r.state == Applying then PlanApplying(r, a, epoch)
        else if claimLive then Do(ApplyUnderHeldClaim)
        else if r.kind == OtherKind then Refuse(UnsupportedKind)
        else if r.deadline <= now then Refuse(DeadlinePassed)
        else Do(ClaimFirst)
  }

  function PlanApplying(r: Record, a: Application, epoch: nat): Decision {
    if a.outcome.Unresolved? then Refuse(UnresolvedApplication)
    else if r.claimEpoch == epoch then Do(DriveApplyingRecord)
    else if !a.Fences(r.claimEpoch) then Refuse(UnfencedApplier)
    else Do(RejectAbandoned)
  }

  // ------------------------------------------------------------------------
  // When each settlement is chosen
  // ------------------------------------------------------------------------

  /** The applier still owns the session, and the correlation is about this record. */
  predicate Admissible(r: Record, a: Application, epoch: nat) {
    && r.claimEpoch <= epoch && a.superseding <= epoch
    && !a.outcome.UnknownOutcome? && !a.outcome.Conflicted?
    && (!a.outcome.Absent? ==> a.id == r.id && a.runtime == r.runtime && a.prefixEpoch <= epoch)
  }

  /**
   A rejection is chosen exactly for a predecessor's lapsed application that the journal proves had no
   effect, its writer fenced.
   */
  lemma RejectedExactlyWhenProved(r: Record, a: Application, epoch: nat, now: Instant)
    ensures Plan(r, a, epoch, now) == Do(RejectAbandoned) <==>
            && Admissible(r, a, epoch) && r.state == Applying && r.claimEpoch < epoch && r.claimExpires <= now
            && (a.outcome.Absent? || a.outcome.Abandoned?) && r.claimEpoch < a.superseding
  {
  }

  /**
   A completion is chosen exactly for an applying record whose effect committed: whatever the clock, the claim or
   the deadline.
   */
  lemma CompletedExactlyWhenCommitted(r: Record, a: Application, epoch: nat, now: Instant)
    ensures Plan(r, a, epoch, now) == Do(Complete) <==>
            Admissible(r, a, epoch) && r.state == Applying && a.outcome.Committed?
  {
  }

  /** The runtime is driven again only for this applier's own applying record, on a journal that proves no effect. */
  lemma RedrivenExactlyWhenOwn(r: Record, a: Application, epoch: nat, now: Instant)
    ensures Plan(r, a, epoch, now) == Do(DriveApplyingRecord) <==>
            && Admissible(r, a, epoch) && r.state == Applying && r.claimEpoch == epoch
            && (a.outcome.Absent? || a.outcome.Abandoned?)
  {
  }

  /**
   A record not yet applying is applied exactly under this applier's own live claim, of whatever kind and deadline.
   */
  lemma AppliedExactlyUnderOwnClaim(r: Record, a: Application, epoch: nat, now: Instant)
    ensures Plan(r, a, epoch, now) == Do(ApplyUnderHeldClaim) <==>
            && Admissible(r, a, epoch) && r.state != Applying && !a.outcome.Committed?
            && now < r.claimExpires && r.claimEpoch == epoch
  {
  }

  /** It is claimed first exactly when no claim is live, its kind is one this Host applies and its deadline is ahead. */
  lemma ClaimedExactlyWhenUnclaimed(r: Record, a: Application, epoch: nat, now: Instant)
    ensures Plan(r, a, epoch, now) == Do(ClaimFirst) <==>
            && Admissible(r, a, epoch) && r.state != Applying && !a.outcome.Committed?
            && r.claimExpires <= now < r.deadline && r.kind != OtherKind
  {
  }

  /** What each refusal says of the record and the evidence. */
  predicate Obstructed(r: Record, a: Application, epoch: nat, now: Instant, why: Refusal) {
    var owns := r.claimEpoch <= epoch && a.superseding <= epoch;
    var about := a.outcome.Absent? || (a.id == r.id && a.runtime == r.runtime);
    var open := Admissible(r, a, epoch) && !a.outcome.Committed?;
    match why
    case StaleEpoch =>
      !owns || (!a.outcome.Absent? && !a.outcome.UnknownOutcome? && !a.outcome.Conflicted? && about &&
          epoch < a.prefixEpoch)
    case Correlation =>
      owns && !a.outcome.UnknownOutcome? &&
      (a.outcome.Conflicted? || !about || (Admissible(r, a, epoch) && a.outcome.Committed? && r.state != Applying))
    case UnresolvedApplication =>
      || (owns && a.outcome.UnknownOutcome?)
      || (open && a.outcome.Unresolved? && r.state == Applying && (r.claimEpoch == epoch || r.claimExpires <= now))
    case ClaimHeld => open && now < r.claimExpires && r.claimEpoch != epoch
    case UnfencedApplier =>
      && open && !a.outcome.Unresolved? && r.state == Applying
      && r.claimEpoch < epoch && r.claimExpires <= now && a.superseding <= r.claimEpoch
    case UnsupportedKind => open && r.state != Applying && r.claimExpires <= now && r.kind == OtherKind
    case DeadlinePassed =>
      open && r.state != Applying && r.claimExpires <= now && r.kind != OtherKind && r.deadline <= now
    case _ => false
  }

  /** A record is left as it is, for the reason named, exactly when that stands in the way. */
  lemma RefusedExactlyWhenObstructed(r: Record, a: Application, epoch: nat, now: Instant, why: Refusal)
    ensures Plan(r, a, epoch, now) == Refuse(why) <==> Obstructed(r, a, epoch, now, why)
  {
  }

  // ------------------------------------------------------------------------
  // The deleted guards
  // ------------------------------------------------------------------------

  /** What every store write keeps: an unclaimed record has no expiry, and a pending one is unclaimed. */
  predicate ClaimsOk(r: Record) {
    (r.claimEpoch == 0 ==> r.claimExpires == 0) && (r.state == Pending ==> r.claimEpoch == 0)
  }

  /** The decision as it stood with its three deleted guards; None where a guard's own arm is reached. */
  function GuardedPlan(r: Record, a: Application, epoch: nat, now: Instant): Option<Decision> {
    if epoch < r.claimEpoch then Some(Refuse(StaleEpoch))
    else if a.Fences(epoch) then Some(Refuse(StaleEpoch))
    else
      var problem := CheckApplication(r, a, epoch);
      if problem.Some? then Some(Refuse(problem.value))
      else if a.outcome.Committed? then
        Some(if r.state != Applying then Refuse(Correlation) else Do(Complete))
      else
        var claimLive := r.claimEpoch != 0 && now < r.claimExpires;
        if claimLive && r.claimEpoch != epoch then Some(Refuse(ClaimHeld))
        else if r.state == Applying then
          if a.outcome.Unresolved? then Some(Refuse(UnresolvedApplication))
          else if r.claimEpoch == epoch then Some(Do(DriveApplyingRecord))
          else if !a.ProvesNoEffect() then None
          else if !a.Fences(r.claimEpoch) then Some(Refuse(UnfencedApplier))
          else Some(Do(RejectAbandoned))
        else if r.state == Claimed && claimLive then Some(Do(ApplyUnderHeldClaim))
        else if r.kind == OtherKind then Some(Refuse(UnsupportedKind))
        else if r.deadline <= now then Some(Refuse(DeadlinePassed))
        else Some(Do(ClaimFirst))
  }

  /** The last guard's own arm is unreachable, on any record and any evidence. */
  lemma NoEffectGuardIsImplied(r: Record, a: Application, epoch: nat, now: Instant)
    ensures GuardedPlan(r, a, epoch, now).Some?
  {
  }

  /** The other two change no decision about a record exactly when a live expiry implies a claim by someone. */
  lemma ClaimGuardsAreImplied(r: Record)
    requires !Terminal(r.state)
    ensures (forall a, epoch, now :: GuardedPlan(r, a, epoch, now) == Some(Plan(r, a, epoch, now))) <==>
            (r.claimExpires > 0 ==> r.claimEpoch != 0 && r.state != Pending)
    // Every record the store writes is of that kind.
    ensures ClaimsOk(r) ==> forall a, epoch, now :: GuardedPlan(r, a, epoch, now) == Some(Plan(r, a, epoch, now))
  {
    if r.claimExpires > 0 && r.claimEpoch == 0 {
      var a := Application(r.id, r.runtime, Absent, 0, 0, 1);
      assert Plan(r, a, 1, 0) == Refuse(ClaimHeld);
      assert GuardedPlan(r, a, 1, 0) != Some(Plan(r, a, 1, 0));
    } else if r.claimExpires > 0 && r.state == Pending {
      var a := Application(r.id, r.runtime, Absent, 0, 0, 0);
      assert Plan(r, a, r.claimEpoch, 0) == Do(ApplyUnderHeldClaim);
      assert GuardedPlan(r, a, r.claimEpoch, 0) != Some(Plan(r, a, r.claimEpoch, 0));
    }
  }
}
