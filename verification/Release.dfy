/**
 One residency's release: destructive steps that run once and share their one
 outcome, and durable steps that latch on success, however a drain, a warm
 release, a give-up and the attach that installed it interleave.
 */
module Release {
  import opened Base

  /** What a residency holds, each handed back by one destructive step. */
  datatype Holding = Heartbeat | Grant | Workspace | Charge

  // ------------------------------------------------------------------------
  // The resident's guards, one call at a time
  // ------------------------------------------------------------------------

  /** How a step ended; a refusal for a grant already lost is expected and is not a failure of the release. */
  datatype Outcome = Done | LostGrant | Failed

  /** Runs its action once; every caller gets that run's outcome. */
  class SharedOnce {
    var outcome: Option<Outcome>

    constructor ()
      ensures outcome == None
    {
      outcome := None;
    }

    /** `would` is how the action ends if it runs. */
    method Run(would: Outcome) returns (r: Outcome, ran: bool)
      modifies this
      ensures ran == old(outcome).None?
      ensures outcome == Some(r) && (old(outcome).Some? ==> outcome == old(outcome)) && (ran ==> r == would)
    {
      ran := outcome.None?;
      if ran { outcome := Some(would); }
      r := outcome.value;
    }
  }

  /** Runs its action until it succeeds once. */
  class OnceOnSuccess {
    var done: bool

    constructor ()
      ensures !done
    {
      done := false;
    }

    method Run(would: Outcome) returns (r: Outcome, ran: bool)
      modifies this
      ensures ran == !old(done) && r == (if old(done) then Done else would) && done == r.Done?
    {
      if done { return Done, false; }
      ran, r := true, would;
      if would.Done? { done := true; }
    }
  }

  /** Clears the success latches of the steps an unfinished release may have completed. */
  method ForgetReleaseProgress(latches: seq<OnceOnSuccess>)
    modifies latches
    ensures forall l :: l in latches ==> !l.done
  {
    var i := 0;
    while i < |latches|
      invariant 0 <= i <= |latches| && forall j :: 0 <= j < i ==> !latches[j].done
    {
      latches[i].done := false;
      i := i + 1;
    }
  }

  /** How each action of a release would end, if it ran. */
  datatype Would = Would(tombstone: Outcome, heartbeat: Outcome, grant: Outcome, workspace: Outcome, revert: bool)

  /** A shared step's outcome once it was asked for: the first run's, for good. */
  function FirstOf(recorded: Option<Outcome>, would: Outcome): Option<Outcome> {
    if recorded.Some? then recorded else Some(would)
  }

  class Resident {
    const ownershipStop: SharedOnce
    const leaseRelease: SharedOnce
    const stateDrop: SharedOnce
    const begin: OnceOnSuccess
    const checkpoint: OnceOnSuccess
    const finish: OnceOnSuccess
    var workDone: bool

    ghost predicate Valid() {
      ownershipStop != leaseRelease && ownershipStop != stateDrop && leaseRelease != stateDrop &&
      begin != checkpoint && begin != finish && checkpoint != finish
    }

    constructor ()
      ensures Valid() && !workDone && !begin.done && !checkpoint.done && !finish.done
      ensures ownershipStop.outcome == None && leaseRelease.outcome == None && stateDrop.outcome == None
    {
      ownershipStop := new SharedOnce();
      leaseRelease := new SharedOnce();
      stateDrop := new SharedOnce();
      begin := new OnceOnSuccess();
      checkpoint := new OnceOnSuccess();
      finish := new OnceOnSuccess();
      workDone := false;
    }

    /**
     The drain's end: every step is reached whatever failed before it.  It fails exactly when the tombstone or a
     shared step genuinely failed; what a lost grant makes certain is not a failure.
     */
    method DrainFinishRelease(w: Would) returns (ok: bool)
      requires Valid()
      modifies finish, ownershipStop, leaseRelease, stateDrop
      ensures ok <==>
              && (old(finish.done) || !w.tombstone.Failed?)
              && ownershipStop.outcome != Some(Failed) && leaseRelease.outcome != Some(Failed)
              && stateDrop.outcome != Some(Failed)
      // Each shared step has its own outcome, and what was already given back is not given back again.
      ensures ownershipStop.outcome == FirstOf(old(ownershipStop.outcome), w.heartbeat)
      ensures leaseRelease.outcome == FirstOf(old(leaseRelease.outcome), w.grant)
      ensures stateDrop.outcome == FirstOf(old(stateDrop.outcome), w.workspace)
      ensures finish.done == (old(finish.done) || w.tombstone.Done?)
    {
      var tombstoned, _ := finish.Run(w.tombstone);
      var stopped, _ := ownershipStop.Run(w.heartbeat);
      var released, _ := leaseRelease.Run(w.grant);
      var dropped, _ := stateDrop.Run(w.workspace);
      var failures := [tombstoned, stopped, released, dropped];
      var left := WithoutLostGrant(failures);
      assert tombstoned == failures[0] && stopped == failures[1] && released == failures[2] && dropped == failures[3];
      ok := left == [];
    }

    /** The warm view's end stops at a failed tombstone, and leaves the grant and the state to their own steps. */
    method WarmFinishRelease(w: Would) returns (r: Outcome)
      requires Valid()
      modifies finish, ownershipStop
      ensures finish.done == (old(finish.done) || w.tombstone.Done?)
      ensures !finish.done ==> r == w.tombstone && ownershipStop.outcome == old(ownershipStop.outcome)
      ensures finish.done ==>
                ownershipStop.outcome == Some(r) && ownershipStop.outcome == FirstOf(old(ownershipStop.outcome),
                    w.heartbeat)
    {
      var tombstoned, _ := finish.Run(w.tombstone);
      if !tombstoned.Done? { return tombstoned; }
      var stopped, _ := ownershipStop.Run(w.heartbeat);
      r := stopped;
    }

    /**
     Takes a release back: refused once the session's work has stopped, or by the registry; otherwise the next one
     begins and checkpoints again.
     */
    method AbortRelease(w: Would) returns (ok: bool)
      requires Valid()
      modifies begin, checkpoint
      ensures ok <==> !workDone && w.revert
      ensures ok ==> !begin.done && !checkpoint.done
      ensures !ok ==> begin.done == old(begin.done) && checkpoint.done == old(checkpoint.done)
    {
      if workDone || !w.revert { return false; }
      ForgetReleaseProgress([begin, checkpoint]);
      assert begin in [begin, checkpoint] && checkpoint in [begin, checkpoint];
      ok := true;
    }
  }

  /** What is left to report: the genuine failures, and none of what a lost grant made certain. */
  function WithoutLostGrant(outcomes: seq<Outcome>): (left: seq<Outcome>)
    ensures left == [] <==> forall i :: 0 <= i < |outcomes| ==> !outcomes[i].Failed?
  {
    if outcomes == [] then []
    else if outcomes[0].Failed? then [Failed] + WithoutLostGrant(outcomes[1..])
    else
      assert forall i :: 1 <= i < |outcomes| ==> outcomes[i] == outcomes[1..][i - 1];
      WithoutLostGrant(outcomes[1..])
  }

  // ------------------------------------------------------------------------
  // The residency between its attach and everyone who may end it
  // ------------------------------------------------------------------------

  /** The attach that installs the residency, from its registry entry on, around its commit point. */
  datatype Attach =
    | Attaching                        // not in the resident table yet
    | Committed                        // in the table; the warm watch has not answered
    | Refused                          // the watch refused it; still in the table
    | RollingBack(committed: bool, gave: set<Holding>) // the Manager gives everything back itself
    | Owned                            // the Manager holds the residency's release authority

  /** Who took the admission charge out of the ledger. */
  datatype Taker = Authority | Bypass | Successor | Manager

  /** One run of a destructive step: through the residency's shared guard, or past it. */
  datatype Given = Shared(what: Holding) | Direct(what: Holding)

  datatype Answer = Answer(what: Holding, ok: bool)

  /**
   A path that ends a residency: a drain, a give-up, a warm release, or its attach's rollback through the authority.
   */
  datatype Kind = Drain | GiveUp | Warm | Rollback

  /** One such path: whether its tombstone was written, what it is asking for, what it was told of, and its end. */
  datatype Releaser = Releaser(
    kind: Kind, tombstone: Option<bool>, asked: Option<Holding>, told: set<Holding>, ended: bool)

  function Fresh(kind: Kind): Releaser { Releaser(kind, None, None, {}, false) }

  const Owed: set<Holding> := {Heartbeat, Grant, Workspace}

  /**
   What a path has asked for by the time it ends, given what the attach took.  A drain and a give-up reach all three
   steps whatever failed before; a warm release leaves the heartbeat alone when its tombstone failed; a rollback
   compensates for what was taken.
   */
  function Owes(took: set<Holding>, r: Releaser): set<Holding> {
    match r.kind
    case Drain => Owed
    case GiveUp => Owed
    case Warm => if r.tombstone == Some(true) then Owed else {Grant, Workspace}
    case Rollback => took + {Charge}
  }

  /** A warm release goes on only after its tombstone was attempted, and stops the heartbeat only if it was written. */
  predicate May(r: Releaser, what: Holding) {
    r.kind == Warm ==> what != Charge && r.tombstone.Some? && (what == Heartbeat ==> r.tombstone.value)
  }

  /** The path has begun to give something back: a drain may leave a residency to its attach instead. */
  predicate Gives(r: Releaser) { r.asked.Some? || r.told != {} }

  /** `took`: the grant, a workspace if the agent requires one, and the heartbeat once it has started. */
  datatype State = State(
    took: set<Holding>, attach: Attach, inTable: bool, releasers: map<nat, Releaser>,
    tried: set<Holding>, ran: map<Holding, bool>, // the shared guards: begun, and how they ended
    given: seq<Given>, taker: Option<Taker>, answers: seq<Answer>)

  function Init(took: set<Holding>): State { State(took, Attaching, false, map[], {}, map[], [], None, []) }

  datatype Action =
    | StartsHeartbeat
    | TrackRefused                     // before the commit: draining, cancelled, or nothing to track
    | Commits
    | WatchAccepts
    | WatchRefuses
    | ForgetsRefused
    | GivesBack(what: Holding)         // the Manager's rollback, past the shared guard
    | Takes(r: nat, kind: Kind)        // some path takes the residency from the table
    | RollsBack(r: nat)                // the attach fails later, and rolls back through the authority
    | Forgets
    | Tombstones(r: nat, ok: bool)
    | Call(r: nat, what: Holding)
    | RunEnds(what: Holding, ok: bool)
    | Answers(r: nat)
    | Ends(r: nat)
    | WarmCredits(r: nat)              // the warm release credits the ledger itself, and ignores the answer
    | SuccessorClaims                  // a successor's admission claims the charge

  predicate Active(s: State, r: nat) { r in s.releasers && !s.releasers[r].ended }

  predicate Enabled(s: State, a: Action) {
    match a
    case StartsHeartbeat => s.attach.Attaching?
    case TrackRefused => s.attach.Attaching?
    case Commits => s.attach.Attaching? && Heartbeat in s.took
    case WatchAccepts => s.attach.Committed?
    case WatchRefuses => s.attach.Committed?
    case ForgetsRefused => s.attach.Refused?
    case GivesBack(h) => s.attach.RollingBack? && h !in s.attach.gave && (h in s.took || h == Charge)
    // There is a warm release only of a residency the watch accepted.
    case Takes(r, kind) =>
      s.inTable && r !in s.releasers && kind != Rollback && (kind == Warm ==> s.attach.Owned?)
    case RollsBack(r) => s.attach.Owned? && r !in s.releasers
    case Forgets => s.inTable
    case Tombstones(r, _) => Active(s, r) && s.releasers[r].tombstone.None?
    case Call(r, h) => Active(s, r) && s.releasers[r].asked.None? && May(s.releasers[r], h)
    // The ledger credits the charge exactly when it is still this generation's.
    case RunEnds(h, ok) => h in s.tried && h !in s.ran && (h == Charge ==> ok == s.taker.None?)
    case Answers(r) => Active(s, r) && s.releasers[r].asked.Some? && s.releasers[r].asked.value in s.ran
    // A drain whose wait for the attach is cut short, or that finds it rolled back, leaves the residency alone.
    case Ends(r) =>
      Active(s, r) && s.releasers[r].asked.None? &&
      (Owes(s.took, s.releasers[r]) <= s.releasers[r].told || (s.releasers[r].kind == Drain && !Gives(s.releasers[r])))
    case WarmCredits(r) => Active(s, r) && s.releasers[r].kind == Warm
    case SuccessorClaims => true
  }

  function Took(s: State, who: Taker): State { if s.taker.None? then s.(taker := Some(who)) else s }

  function Put(s: State, r: nat, releaser: Releaser): State { s.(releasers := s.releasers[r := releaser]) }

  function Apply(s: State, a: Action): State
    requires Enabled(s, a)
  {
    match a
    case StartsHeartbeat => s.(took := s.took + {Heartbeat})
    case TrackRefused => s.(attach := RollingBack(false, {}))
    case Commits => s.(attach := Committed, inTable := true)
    case WatchAccepts => s.(attach := Owned)
    case WatchRefuses => s.(attach := Refused)
    case ForgetsRefused => s.(attach := RollingBack(true, {}), inTable := false)
    case GivesBack(h) =>
      var t := if h == Charge then Took(s, Manager) else s;
      t.(attach := s.attach.(gave := s.attach.gave + {h}), given := s.given + [Direct(h)])
    case Takes(r, kind) => Put(s, r, Fresh(kind))
    case RollsBack(r) => Put(s, r, Fresh(Rollback))
    case Forgets => s.(inTable := false)
    case Tombstones(r, ok) => Put(s, r, s.releasers[r].(tombstone := Some(ok)))
    case Call(r, h) =>
      var t := Put(s, r, s.releasers[r].(asked := Some(h)));
      if h !in s.tried then t.(tried := s.tried + {h}, given := s.given + [Shared(h)]) else t
    case RunEnds(h, ok) => (if h == Charge then Took(s, Authority) else s).(ran := s.ran[h := ok])
    case Answers(r) =>
      var h := s.releasers[r].asked.value;
      Put(s, r, s.releasers[r].(asked := None, told := s.releasers[r].told + {h})).(
        answers := s.answers + [Answer(h, s.ran[h])])
    case Ends(r) => Put(s, r, s.releasers[r].(ended := true))
    case WarmCredits(_) => Took(s, Bypass)
    case SuccessorClaims => Took(s, Successor)
  }

  predicate Step(s: State, a: Action, t: State) { Enabled(s, a) && t == Apply(s, a) }

  datatype History = History(actions: seq<Action>, states: seq<State>)

  predicate Initial(s: State) { s == Init(s.took) && (s.took == {Grant} || s.took == {Grant, Workspace}) }

  predicate Legal(h: History) {
    && |h.states| == |h.actions| + 1 && Initial(h.states[0])
    && forall i {:trigger h.actions[i]} :: 0 <= i < |h.actions| ==> Step(h.states[i], h.actions[i], h.states[i + 1])
  }

  function Extended(h: History, a: Action): (k: History)
    requires Legal(h) && Enabled(Last(h.states), a)
    ensures Legal(k) && Last(k.states) == Apply(Last(h.states), a) && k.actions == h.actions + [a]
  {
    var k := History(h.actions + [a], h.states + [Apply(Last(h.states), a)]);
    assert forall i :: 0 <= i < |h.actions| ==> k.actions[i] == h.actions[i] && k.states[i + 1] == h.states[i + 1];
    k
  }

  // ------------------------------------------------------------------------
  // The invariant
  // ------------------------------------------------------------------------

  function One(b: bool): nat { if b then 1 else 0 }

  /** How often a holding's step was run, by whomever. */
  ghost function Times(s: State, h: Holding): nat {
    multiset(s.given)[Shared(h)] + multiset(s.given)[Direct(h)]
  }

  function Gave(s: State): set<Holding> { if s.attach.RollingBack? then s.attach.gave else {} }

  /** The warm watch refused the residency after its commit, and another path that had it gives it back as well. */
  ghost predicate Exposed(s: State) {
    (s.attach.Refused? || (s.attach.RollingBack? && s.attach.committed)) &&
    exists r :: r in s.releasers && Gives(s.releasers[r])
  }

  /** A path that stops the heartbeat: any but a warm release whose tombstone failed. */
  predicate Stops(r: Releaser) { Gives(r) && (r.kind == Warm ==> r.tombstone == Some(true)) }

  ghost predicate SharedOk(s: State, h: Holding) { multiset(s.given)[Shared(h)] == One(h in s.tried) }

  ghost predicate DirectOk(s: State, h: Holding) { multiset(s.given)[Direct(h)] == One(h in Gave(s)) }

  /** A guard was begun by some path that gives back; the heartbeat's, by one that stops it. */
  ghost predicate BegunOk(s: State, h: Holding) {
    h in s.tried ==> exists r :: r in s.releasers && Gives(s.releasers[r]) && (h == Heartbeat ==> Stops(s.releasers[r]))
  }

  ghost predicate GivenOk(s: State, h: Holding) { SharedOk(s, h) && DirectOk(s, h) && BegunOk(s, h) }

  ghost predicate AttachOk(s: State) {
    && (s.attach.Attaching? || (s.attach.RollingBack? && !s.attach.committed) ==> s.releasers.Keys == {})
    && (s.inTable ==> s.attach.Committed? || s.attach.Refused? || s.attach.Owned?)
    && Grant in s.took && s.took <= Owed && Gave(s) <= s.took + {Charge}
    && (s.attach.Attaching? || (s.attach.RollingBack? && !s.attach.committed) || Heartbeat in s.took)
  }

  ghost predicate ReleaserOk(s: State, r: Releaser) {
    && r.told <= s.ran.Keys
    && (r.ended ==> r.asked.None? && (Owes(s.took, r) <= r.told || (r.kind == Drain && r.told == {})))
    && (r.asked.Some? ==> r.asked.value in s.tried)
    && (r.kind == Warm || r.kind == Rollback ==> s.attach.Owned?)
  }

  ghost predicate ReleasersOk(s: State) { forall r :: r in s.releasers ==> ReleaserOk(s, s.releasers[r]) }

  ghost predicate AnswersOk(s: State) {
    forall i :: 0 <= i < |s.answers| ==> s.answers[i].what in s.ran && s.ran[s.answers[i].what] == s.answers[i].ok
  }

  ghost predicate Inv(s: State) {
    (forall h :: GivenOk(s, h)) && s.ran.Keys <= s.tried && AttachOk(s) && ReleasersOk(s) && AnswersOk(s)
  }

  /** What no step undoes. */
  ghost predicate Grows(s: State, t: State) {
    && s.tried <= t.tried
    && (forall h :: h in s.ran ==> h in t.ran && t.ran[h] == s.ran[h])
    && (s.taker.Some? ==> t.taker == s.taker)
    && (forall r :: r in s.releasers ==> r in t.releasers && ReleaserGrows(s.releasers[r], t.releasers[r]))
  }

  predicate ReleaserGrows(r: Releaser, q: Releaser) {
    && q.kind == r.kind && r.told <= q.told
    && (r.tombstone.Some? ==> q.tombstone == r.tombstone)
    && (Gives(r) ==> Gives(q)) && (r.ended ==> q.ended)
  }

  lemma StepGrows(s: State, a: Action)
    requires Enabled(s, a)
    ensures Grows(s, Apply(s, a))
  {
  }

  lemma StepShared(s: State, a: Action, h: Holding)
    requires Enabled(s, a) && SharedOk(s, h)
    ensures SharedOk(Apply(s, a), h)
  {
    var t := Apply(s, a);
    match a
    case GivesBack(what) => assert multiset(t.given) == multiset(s.given) + multiset{Direct(what)};
    case Call(r, what) =>
      if what !in s.tried { assert multiset(t.given) == multiset(s.given) + multiset{Shared(what)}; }
    case _ =>
  }

  lemma StepDirect(s: State, a: Action, h: Holding)
    requires Enabled(s, a) && DirectOk(s, h)
    ensures DirectOk(Apply(s, a), h)
  {
    var t := Apply(s, a);
    match a
    case GivesBack(what) => assert multiset(t.given) == multiset(s.given) + multiset{Direct(what)};
    case Call(r, what) =>
      if what !in s.tried { assert multiset(t.given) == multiset(s.given) + multiset{Shared(what)}; }
    case _ =>
  }

  lemma StepBegun(s: State, a: Action, h: Holding)
    requires Enabled(s, a) && BegunOk(s, h)
    ensures BegunOk(Apply(s, a), h)
  {
    var t := Apply(s, a);
    StepGrows(s, a);
    if h in s.tried {
      var r :| r in s.releasers && Gives(s.releasers[r]) && (h == Heartbeat ==> Stops(s.releasers[r]));
      assert ReleaserGrows(s.releasers[r], t.releasers[r]);
    } else if h in t.tried {
      assert a.r in t.releasers && Gives(t.releasers[a.r]);
    }
  }

  /** A releaser that does not move keeps what it was told. */
  lemma ToldStays(s: State, t: State, r: Releaser)
    requires ReleaserOk(s, r) && s.tried <= t.tried && s.ran.Keys <= t.ran.Keys && t.took == s.took
    requires s.attach.Owned? ==> t.attach.Owned?
    ensures ReleaserOk(t, r)
  {
  }

  lemma MovedReleaser(s: State, a: Action, r: nat)
    requires Enabled(s, a) && r in Apply(s, a).releasers && (r in s.releasers ==> ReleaserOk(s, s.releasers[r]))
    requires r in s.releasers ==> Apply(s, a).releasers[r] != s.releasers[r]
    ensures ReleaserOk(Apply(s, a), Apply(s, a).releasers[r])
  {
    match a
    case Takes(q, _) => assert r == q;
    case RollsBack(q) => assert r == q;
    case Tombstones(q, _) => assert r == q;
    case Call(q, _) => assert r == q;
    case Answers(q) => assert r == q;
    case Ends(q) => assert r == q;
    case _ =>
  }

  lemma StepReleaser(s: State, a: Action, r: nat)
    requires Enabled(s, a) && AttachOk(s)
    requires r in Apply(s, a).releasers && (r in s.releasers ==> ReleaserOk(s, s.releasers[r]))
    ensures ReleaserOk(Apply(s, a), Apply(s, a).releasers[r])
  {
    var t := Apply(s, a);
    if r in s.releasers && t.releasers[r] == s.releasers[r] {
      StepGrows(s, a);
      assert s.ran.Keys <= t.ran.Keys;
      ToldStays(s, t, s.releasers[r]);
    } else {
      MovedReleaser(s, a, r);
    }
  }

  lemma StepReleasers(s: State, a: Action)
    requires Enabled(s, a) && AttachOk(s) && ReleasersOk(s)
    ensures ReleasersOk(Apply(s, a))
  {
    forall r | r in Apply(s, a).releasers ensures ReleaserOk(Apply(s, a), Apply(s, a).releasers[r]) {
      StepReleaser(s, a, r);
    }
  }

  lemma StepGivens(s: State, a: Action)
    requires Enabled(s, a) && forall h :: GivenOk(s, h)
    ensures forall h :: GivenOk(Apply(s, a), h)
  {
    forall h ensures GivenOk(Apply(s, a), h) {
      assert GivenOk(s, h);
      StepShared(s, a, h);
      StepDirect(s, a, h);
      StepBegun(s, a, h);
    }
  }

  lemma StepAttach(s: State, a: Action)
    requires Enabled(s, a) && AttachOk(s)
    ensures AttachOk(Apply(s, a))
  {
  }

  lemma StepAnswers(s: State, a: Action)
    requires Enabled(s, a) && AnswersOk(s) && s.ran.Keys <= s.tried
    ensures AnswersOk(Apply(s, a)) && Apply(s, a).ran.Keys <= Apply(s, a).tried
  {
  }

  lemma StepInv(s: State, a: Action)
    requires Inv(s) && Enabled(s, a)
    ensures Inv(Apply(s, a))
  {
    StepGivens(s, a);
    StepReleasers(s, a);
    StepAttach(s, a);
    StepAnswers(s, a);
  }

  lemma {:induction false} ReachableInv(h: History, i: nat)
    requires Legal(h) && i <= |h.actions|
    ensures Inv(h.states[i])
  {
    if i > 0 {
      ReachableInv(h, i - 1);
      assert Step(h.states[i - 1], h.actions[i - 1], h.states[i]);
      StepInv(h.states[i - 1], h.actions[i - 1]);
    }
  }

  lemma {:induction false} LaterRan(h: History, i: nat, j: nat, what: Holding)
    requires Legal(h) && i <= j <= |h.actions| && what in h.states[i].ran
    ensures what in h.states[j].ran && h.states[j].ran[what] == h.states[i].ran[what]
    decreases j
  {
    if i < j {
      LaterRan(h, i, j - 1, what);
      assert Step(h.states[j - 1], h.actions[j - 1], h.states[j]);
      StepGrows(h.states[j - 1], h.actions[j - 1]);
    }
  }

  // ------------------------------------------------------------------------
  // How often each holding is given back
  // ------------------------------------------------------------------------

  /** Through the shared guard, each holding is given back at most once, over every interleaving. */
  lemma SharedAtMostOnce(h: History, i: nat, what: Holding)
    requires Legal(h) && i <= |h.actions|
    ensures multiset(h.states[i].given)[Shared(what)] <= 1
  {
    ReachableInv(h, i);
    assert GivenOk(h.states[i], what);
  }

  /** Unless the watch refused a committed residency that another path gives back as well, none is given back twice. */
  lemma GivenBackOnce(h: History, i: nat, what: Holding)
    requires Legal(h) && i <= |h.actions| && !Exposed(h.states[i])
    ensures Times(h.states[i], what) <= 1
  {
    ReachableInv(h, i);
    assert GivenOk(h.states[i], what);
  }

  /** The residency is over: its attach is done with it, or some path gave it back; and nobody is at it still. */
  ghost predicate Over(s: State) {
    && (s.attach.Owned? || (s.attach.RollingBack? && s.took <= s.attach.gave))
    && (s.attach.Owned? ==> exists r :: r in s.releasers && Gives(s.releasers[r]))
    && forall r :: r in s.releasers ==> s.releasers[r].ended
  }

  /** Somebody stopped the heartbeat: the Manager, or a path that was no warm release with a failed tombstone. */
  ghost predicate HeartbeatStopped(s: State) {
    if s.attach.RollingBack? then Heartbeat in s.took
    else exists r :: r in s.releasers && Stops(s.releasers[r])
  }

  /** What a path that gave something back has given back by its end. */
  lemma EndedOwes(s: State, r: nat)
    requires Inv(s) && r in s.releasers && s.releasers[r].ended && Gives(s.releasers[r])
    ensures Owes(s.took, s.releasers[r]) <= s.tried
    ensures s.took - {Heartbeat} <= s.tried && (Stops(s.releasers[r]) ==> s.took <= s.tried)
    ensures !s.attach.Owned? ==> Stops(s.releasers[r])
  {
    assert ReleaserOk(s, s.releasers[r]);
  }

  /**
   Once a residency is over, its grant, and its workspace if its agent requires one, were each given back exactly once
   if and only if the warm watch did not refuse it after its commit with another path giving it back as well; and its
   heartbeat was stopped exactly once if and only if, besides, somebody stopped it.  When the watch did, all of them
   were given back twice; when nobody did, because every path was a warm release whose tombstone failed, the
   heartbeat's step was run zero times.
   */
  lemma GivenBackExactlyOnce(h: History, i: nat)
    requires Legal(h) && i <= |h.actions| && Over(h.states[i])
    ensures var s := h.states[i];
            && ((forall what :: what in s.took && what != Heartbeat ==> Times(s, what) == 1) <==> !Exposed(s))
            && (Times(s, Heartbeat) == 1 <==> !Exposed(s) && HeartbeatStopped(s))
            && (Times(s, Heartbeat) == 0 <==> !HeartbeatStopped(s))
            && (Exposed(s) ==> forall what :: what in s.took ==> Times(s, what) == 2)
  {
    ReachableInv(h, i);
    var s := h.states[i];
    forall what | what in s.took && what != Heartbeat ensures Times(s, what) == (if Exposed(s) then 2 else 1) {
      OthersTimes(s, what);
    }
    HeartbeatTimes(s);
    assert Grant in s.took && Times(s, Grant) == if Exposed(s) then 2 else 1;
  }

  lemma OthersTimes(s: State, what: Holding)
    requires Inv(s) && Over(s) && what in s.took && what != Heartbeat
    ensures Times(s, what) == if Exposed(s) then 2 else 1
  {
    assert GivenOk(s, what);
    if r :| r in s.releasers && Gives(s.releasers[r]) { EndedOwes(s, r); }
  }

  lemma HeartbeatTimes(s: State)
    requires Inv(s) && Over(s)
    ensures Times(s, Heartbeat) == if Exposed(s) then 2 else One(HeartbeatStopped(s))
    ensures Exposed(s) ==> HeartbeatStopped(s)
  {
    assert GivenOk(s, Heartbeat);
    if r :| r in s.releasers && Stops(s.releasers[r]) {
      EndedOwes(s, r);
    } else if r :| r in s.releasers && Gives(s.releasers[r]) {
      EndedOwes(s, r);
    }
  }

  // ------------------------------------------------------------------------
  // The runs in which it is not once
  // ------------------------------------------------------------------------

  /**
   A drain's snapshot takes the residency between its commit and the watch's refusal, the Manager rolls the attach back
   past the guard, and the drain then gives the same grant, heartbeat and workspace back again.
   */
  lemma RefusedWatchReleasesTwice() returns (h: History)
    ensures Legal(h) && Over(Last(h.states)) && Exposed(Last(h.states))
    ensures forall what :: what in Owed ==> Times(Last(h.states), what) == 2
  {
    h := TakenThenRefused();
    h := RolledBack(h);
    h := DrainedAfter(h, 1);
    var s := Last(h.states);
    assert 1 in s.releasers && Gives(s.releasers[1]);
    GivenBackExactlyOnce(h, |h.actions|);
  }

  /** A warm release whose tombstone fails gives the grant and the workspace back, and never stops the heartbeat. */
  lemma FailedTombstoneLeavesHeartbeat() returns (h: History)
    ensures Legal(h) && Over(Last(h.states)) && !Exposed(Last(h.states))
    ensures Times(Last(h.states), Heartbeat) == 0
    ensures Times(Last(h.states), Grant) == 1 && Times(Last(h.states), Workspace) == 1
  {
    h := OwnedThenTaken(1, Warm);
    h := Extended(h, Tombstones(1, false));
    h := WarmedAfter(h, 1);
    var s := Last(h.states);
    assert 1 in s.releasers && Gives(s.releasers[1]) && !HeartbeatStopped(s);
    GivenBackExactlyOnce(h, |h.actions|);
  }

  /** The warm release with the failed tombstone gives back what it owes, and ends. */
  lemma WarmedAfter(h: History, r: nat) returns (k: History)
    requires Legal(h) && Last(h.states).releasers.Keys == {r} && Last(h.states).releasers[r] == FailedWarm
    requires Last(h.states).tried == {} && Last(h.states).ran == map[]
    ensures Legal(k) && var s, t := Last(h.states), Last(k.states);
            && t.took == s.took && t.attach == s.attach && t.releasers.Keys == {r}
            && t.releasers[r] == FailedWarm.(told := {Grant, Workspace}, ended := true)
  {
    k := Released(h, r, Grant);
    k := Released(k, r, Workspace);
    assert {} + {Grant} + {Workspace} == {Grant, Workspace};
    k := Extended(k, Ends(r));
  }

  const FailedWarm: Releaser := Fresh(Warm).(tombstone := Some(false))

  /** The one path that took the residency gives all it owes back through the guards, and ends. */
  lemma DrainedAfter(h: History, r: nat) returns (k: History)
    requires Legal(h) && Last(h.states).releasers == map[r := Fresh(Drain)]
    requires Last(h.states).tried == {} && Last(h.states).ran == map[]
    ensures Legal(k) && var s, t := Last(h.states), Last(k.states);
            && t.took == s.took && t.attach == s.attach
            && t.releasers.Keys == {r} && t.releasers[r] == Releaser(Drain, None, None, Owed, true)
  {
    k := Released(h, r, Heartbeat);
    k := Released(k, r, Grant);
    k := Released(k, r, Workspace);
    assert {} + {Heartbeat} + {Grant} + {Workspace} == Owed;
    k := Extended(k, Ends(r));
  }

  lemma Attached() returns (h: History)
    ensures Legal(h) && Last(h.states) == State(Owed, Committed, true, map[], {}, map[], [], None, [])
  {
    h := History([], [Init({Grant, Workspace})]);
    h := Extended(h, StartsHeartbeat);
    assert {Grant, Workspace} + {Heartbeat} == Owed;
    h := Extended(h, Commits);
  }

  lemma TakenThenRefused() returns (h: History)
    ensures Legal(h)
    ensures Last(h.states) ==
            State(Owed, RollingBack(true, {}), false, map[1 := Fresh(Drain)], {}, map[], [], None, [])
  {
    h := Attached();
    h := Extended(h, Takes(1, Drain));
    h := Extended(h, WatchRefuses);
    h := Extended(h, ForgetsRefused);
  }

  lemma OwnedThenTaken(r: nat, kind: Kind) returns (h: History)
    requires kind != Rollback
    ensures Legal(h)
    ensures Last(h.states) == State(Owed, Owned, true, map[r := Fresh(kind)], {}, map[], [], None, [])
  {
    h := Attached();
    h := Extended(h, WatchAccepts);
    h := Extended(h, Takes(r, kind));
  }

  /** The Manager's own rollback of what the attach took. */
  lemma RolledBack(h: History) returns (k: History)
    requires Legal(h) && Last(h.states).attach == RollingBack(true, {}) && Last(h.states).took == Owed
    ensures Legal(k) && var s := Last(h.states);
            Last(k.states) == s.(attach := RollingBack(true, Owed),
                given := s.given + [Direct(Heartbeat), Direct(Grant), Direct(Workspace)])
  {
    k := Extended(h, GivesBack(Heartbeat));
    k := Extended(k, GivesBack(Grant));
    k := Extended(k, GivesBack(Workspace));
    assert {} + {Heartbeat} + {Grant} + {Workspace} == Owed;
    var g := Last(h.states).given;
    assert g + [Direct(Heartbeat)] + [Direct(Grant)] + [Direct(Workspace)] ==
           g + [Direct(Heartbeat), Direct(Grant), Direct(Workspace)];
  }

  /** One holding asked for, run and answered. */
  lemma Released(h: History, r: nat, what: Holding) returns (k: History)
    requires Legal(h) && what != Charge && what !in Last(h.states).tried && what !in Last(h.states).ran
    requires Active(Last(h.states), r) && Last(h.states).releasers[r].asked.None? &&
        May(Last(h.states).releasers[r], what)
    ensures Legal(k) && var s, t := Last(h.states), Last(k.states);
            && t.took == s.took && t.attach == s.attach && t.releasers.Keys == s.releasers.Keys
            && t.releasers[r] == s.releasers[r].(told := s.releasers[r].told + {what})
            && t.tried == s.tried + {what} && t.ran == s.ran[what := true]
  {
    k := Extended(h, Call(r, what));
    k := Extended(k, RunEnds(what, true));
    k := Extended(k, Answers(r));
  }

  /** Whoever asks for a holding's release through the guard, early or late, is told that one run's outcome. */
  lemma OneOutcomeForAll(h: History, i: nat, j: nat, x: nat, y: nat)
    requires Legal(h) && i <= j <= |h.actions| && x < |h.states[i].answers| && y < |h.states[j].answers|
    requires h.states[i].answers[x].what == h.states[j].answers[y].what
    ensures h.states[i].answers[x].ok == h.states[j].answers[y].ok
    ensures multiset(h.states[j].given)[Shared(h.states[j].answers[y].what)] == 1
  {
    ReachableInv(h, i);
    ReachableInv(h, j);
    LaterRan(h, i, j, h.states[i].answers[x].what);
    assert GivenOk(h.states[j], h.states[j].answers[y].what);
  }

  // ------------------------------------------------------------------------
  // The admission charge
  // ------------------------------------------------------------------------

  /** The action takes the charge out of the ledger, if it is still there, past the shared guard. */
  predicate Bypasses(a: Action) { a.WarmCredits? || a.SuccessorClaims? || a == GivesBack(Charge) }

  lemma {:induction false} ChargeIsThere(h: History, j: nat)
    requires Legal(h) && j <= |h.actions|
    ensures Charge !in h.states[j].ran ==>
        (h.states[j].taker.None? <==> forall i :: 0 <= i < j ==> !Bypasses(h.actions[i]))
    decreases j
  {
    if j > 0 {
      ChargeIsThere(h, j - 1);
      assert Step(h.states[j - 1], h.actions[j - 1], h.states[j]);
      StepGrows(h.states[j - 1], h.actions[j - 1]);
    }
  }

  /**
   The shared credit succeeds exactly when nothing took the charge past it first: no warm release's own credit, no
   successor's claim and no rollback by the Manager came before it ran.
   */
  lemma CreditSucceedsExactlyWhenFirst(h: History, j: nat)
    requires Legal(h) && j < |h.actions| && h.actions[j].RunEnds? && h.actions[j].what == Charge
    ensures h.actions[j].ok <==> forall i :: 0 <= i < j ==> !Bypasses(h.actions[i])
    ensures forall k :: j < k <= |h.actions| ==> Charge in h.states[k].ran && h.states[k].ran[Charge] == h.actions[j].ok
  {
    assert Step(h.states[j], h.actions[j], h.states[j + 1]);
    ChargeIsThere(h, j);
    forall k | j < k <= |h.actions|
      ensures Charge in h.states[k].ran && h.states[k].ran[Charge] == h.actions[j].ok
    {
      LaterRan(h, j + 1, k, Charge);
    }
  }

  lemma {:induction false} CreditTakes(h: History, j: nat)
    requires Legal(h) && j <= |h.actions| && Charge in h.states[j].ran
    ensures h.states[j].taker.Some?
    decreases j
  {
    if j > 0 {
      assert Step(h.states[j - 1], h.actions[j - 1], h.states[j]);
      if Charge in h.states[j - 1].ran { CreditTakes(h, j - 1); }
    }
  }

  /**
   An attach's rollback through the authority that has ended has compensated for everything the attach took and for the
   admission charge: each of their steps has run, and the charge is out of the ledger.
   */
  lemma RollbackCompensates(h: History, i: nat, r: nat)
    requires Legal(h) && i <= |h.actions| && r in h.states[i].releasers
    requires h.states[i].releasers[r].kind == Rollback && h.states[i].releasers[r].ended
    ensures var s := h.states[i]; s.took <= s.ran.Keys && Charge in s.ran && s.taker.Some?
  {
    ReachableInv(h, i);
    assert ReleaserOk(h.states[i], h.states[i].releasers[r]);
    CreditTakes(h, i);
  }

  lemma CreditedPast() returns (h: History)
    ensures Legal(h)
    ensures Last(h.states) ==
            State(Owed, Owned, true, map[6 := Fresh(Warm), 7 := Fresh(GiveUp)], {}, map[], [], Some(Bypass), [])
  {
    h := OwnedThenTaken(6, Warm);
    h := Extended(h, Takes(7, GiveUp));
    h := Extended(h, WarmCredits(6));
  }

  /** The charge was credited, and a give-up is told that it was not: the warm release credits past the guard. */
  lemma WarmCreditBypassesTheAuthority() returns (h: History)
    ensures Legal(h) && Last(h.states).taker == Some(Bypass) && Last(h.states).answers == [Answer(Charge, false)]
  {
    h := CreditedPast();
    h := Extended(h, Call(7, Charge));
    h := Extended(h, RunEnds(Charge, false));
    h := Extended(h, Answers(7));
  }
}

/**
 The checkpoint's success latch against a release that is taken back: which work
 a finished release's checkpoint covers.
 */
module Checkpointing {
  import opened Base

  /**
   A release, warm or drain.  `seen` is how often a release's progress had been forgotten when its Checkpoint took the
   latch's lock.
   */
  datatype Release =
    | Before
    | Saving(start: nat, seen: nat)
    | Past(seen: nat, ok: bool)
    | Reverting                       // past AbortRelease's checks, about to forget its progress
    | Held                            // AbortRelease refused: the session is the drain's
    | Clearing                        // its held outcome was recorded on a session still tracked
    | Forgotten                       // its progress is forgotten: taken back, or held for the drain
    | Dropped                         // its held outcome found the session no longer tracked
    | Finished(seen: nat, ok: bool)

  datatype State = State(
    work: nat,                        // how much the session has done
    saved: nat,                       // how much of it the last successful checkpoint holds
    done: bool, holder: Option<nat>,  // the latch, and who holds its lock
    marks: seq<nat>,                  // the work done each time a release's progress was forgotten
    barred: bool,                     // a take-back is refused from here on
    tracked: bool,                    // the session is tracked under this generation
    releases: map<nat, Release>)

  function Init(): State { State(0, 0, false, None, [], false, true, map[]) }

  /** What has a take-back refused for good; one may also be refused by the registry. */
  datatype Bar = Draining | WorkStopped | GrantLost | AlreadyFinished

  datatype Action =
    | Works
    | Bars(why: Bar)
    | Untracks
    | Begins(r: nat)
    | Checkpoints(r: nat)
    | SaveEnds(r: nat, ok: bool)
    | Aborts(r: nat, refused: bool)
    | Records(r: nat)                 // the composition is told of a held release
    | Forgets(r: nat)
    | Finishes(r: nat)

  predicate At(s: State, r: nat) { r in s.releases }

  predicate Enabled(s: State, a: Action) {
    match a
    case Works => true
    case Bars(_) => true
    case Untracks => true
    case Begins(r) => r !in s.releases
    case Checkpoints(r) => At(s, r) && s.releases[r].Before? && s.holder.None?
    case SaveEnds(r, _) => At(s, r) && s.releases[r].Saving?
    case Aborts(r, refused) => At(s, r) && s.releases[r].Past? && (s.barred ==> refused)
    case Records(r) => At(s, r) && s.releases[r].Held?
    case Forgets(r) => At(s, r) && (s.releases[r].Reverting? || s.releases[r].Clearing?) && s.holder.None?
    case Finishes(r) => At(s, r) && s.releases[r].Past?
  }

  function Put(s: State, r: nat, release: Release): State { s.(releases := s.releases[r := release]) }

  function Apply(s: State, a: Action): State
    requires Enabled(s, a)
  {
    match a
    case Works => s.(work := s.work + 1)
    case Bars(_) => s.(barred := true)
    case Untracks => s.(tracked := false)
    case Begins(r) => Put(s, r, Before)
    case Checkpoints(r) =>
      if s.done then Put(s, r, Past(|s.marks|, true))
      else Put(s, r, Saving(s.work, |s.marks|)).(holder := Some(r))
    case SaveEnds(r, ok) =>
      var saving := s.releases[r];
      var t := Put(s, r, Past(saving.seen, ok)).(holder := None);
      if ok then t.(done := true, saved := saving.start) else t
    case Aborts(r, refused) => Put(s, r, if refused then Held else Reverting)
    case Records(r) => Put(s, r, if s.tracked then Clearing else Dropped)
    case Forgets(r) => Put(s, r, Forgotten).(done := false, marks := s.marks + [s.work])
    case Finishes(r) => Put(s, r, Finished(s.releases[r].seen, s.releases[r].ok))
  }

  predicate Step(s: State, a: Action, t: State) { Enabled(s, a) && t == Apply(s, a) }

  datatype History = History(actions: seq<Action>, states: seq<State>)

  predicate Legal(h: History) {
    && |h.states| == |h.actions| + 1 && h.states[0] == Init()
    && forall i {:trigger h.actions[i]} :: 0 <= i < |h.actions| ==> Step(h.states[i], h.actions[i], h.states[i + 1])
  }

  /** The checkpoint holds everything done by the first `n` times progress was forgotten. */
  ghost predicate Covers(s: State, n: nat) {
    n <= |s.marks| && forall k :: 0 <= k < n ==> s.marks[k] <= s.saved
  }

  ghost predicate ReleaseOk(s: State, r: nat, release: Release) {
    match release
    case Saving(start, seen) =>
      && s.holder == Some(r) && seen == |s.marks| && s.saved <= start <= s.work
      && forall k :: 0 <= k < |s.marks| ==> s.marks[k] <= start
    case Past(seen, ok) => seen <= |s.marks| && (ok ==> Covers(s, seen))
    case Finished(seen, ok) => seen <= |s.marks| && (ok ==> Covers(s, seen))
    case _ => true
  }

  ghost predicate Inv(s: State) {
    && s.saved <= s.work
    && (forall k :: 0 <= k < |s.marks| ==> s.marks[k] <= s.work)
    && (s.done ==> Covers(s, |s.marks|))
    && (forall r :: r in s.releases ==> ReleaseOk(s, r, s.releases[r]))
  }

  /** What a saving release will have saved is at least what was saved before, and covers every mark. */
  ghost predicate SaveOk(s: State, a: Action) {
    a.SaveEnds? ==> a.r in s.releases && ReleaseOk(s, a.r, s.releases[a.r])
  }

  lemma StepCovers(s: State, a: Action, n: nat)
    requires Enabled(s, a) && SaveOk(s, a) && Covers(s, n)
    ensures Covers(Apply(s, a), n)
  {
  }

  lemma BystanderOk(s: State, a: Action, r: nat)
    requires Enabled(s, a) && SaveOk(s, a) && r in s.releases && ReleaseOk(s, r, s.releases[r])
    requires r in Apply(s, a).releases && Apply(s, a).releases[r] == s.releases[r]
    ensures ReleaseOk(Apply(s, a), r, s.releases[r])
  {
    match s.releases[r]
    case Past(seen, ok) => if ok { StepCovers(s, a, seen); }
    case Finished(seen, ok) => if ok { StepCovers(s, a, seen); }
    case _ =>
  }

  lemma MoverOk(s: State, a: Action, r: nat)
    requires Inv(s) && Enabled(s, a) && r in Apply(s, a).releases
    requires r in s.releases ==> Apply(s, a).releases[r] != s.releases[r]
    ensures ReleaseOk(Apply(s, a), r, Apply(s, a).releases[r])
  {
    match a
    case Checkpoints(q) => assert r == q;
    case SaveEnds(q, ok) => assert r == q && ReleaseOk(s, q, s.releases[q]);
    case Finishes(q) => assert r == q && ReleaseOk(s, q, s.releases[q]);
    case _ =>
  }

  lemma StepRelease(s: State, a: Action, r: nat)
    requires Inv(s) && Enabled(s, a) && r in Apply(s, a).releases
    ensures ReleaseOk(Apply(s, a), r, Apply(s, a).releases[r])
  {
    if r in s.releases && Apply(s, a).releases[r] == s.releases[r] {
      assert ReleaseOk(s, r, s.releases[r]);
      assert SaveOk(s, a);
      BystanderOk(s, a, r);
    } else {
      MoverOk(s, a, r);
    }
  }

  lemma StepInv(s: State, a: Action)
    requires Inv(s) && Enabled(s, a)
    ensures Inv(Apply(s, a))
  {
    var t := Apply(s, a);
    forall r | r in t.releases ensures ReleaseOk(t, r, t.releases[r]) { StepRelease(s, a, r); }
    if a.SaveEnds? { assert ReleaseOk(s, a.r, s.releases[a.r]); }
  }

  lemma {:induction false} ReachableInv(h: History, i: nat)
    requires Legal(h) && i <= |h.actions|
    ensures Inv(h.states[i])
  {
    if i > 0 {
      ReachableInv(h, i - 1);
      assert Step(h.states[i - 1], h.actions[i - 1], h.states[i]);
      StepInv(h.states[i - 1], h.actions[i - 1]);
    }
  }

  /**
   A release that finished holds, in its checkpoint, all that was done by the time of any take-back, and of any held
   release's clearing, that its Checkpoint came after.
   */
  lemma FinishedCoversForgotten(h: History, i: nat, r: nat, k: nat)
    requires Legal(h) && i <= |h.actions| && r in h.states[i].releases && h.states[i].releases[r].Finished?
    requires h.states[i].releases[r].ok && k < h.states[i].releases[r].seen
    ensures k < |h.states[i].marks| && h.states[i].marks[k] <= h.states[i].saved
  {
    ReachableInv(h, i);
    assert ReleaseOk(h.states[i], r, h.states[i].releases[r]);
  }

  /** The checkpoint that ended at step i succeeded, and no release's progress was forgotten since. */
  ghost predicate Stands(h: History, i: nat, j: nat)
    requires j <= |h.actions|
  {
    && i < j && h.actions[i].SaveEnds? && h.actions[i].ok
    && forall k :: i < k < j ==> !h.actions[k].Forgets?
  }

  lemma {:induction false} LatchExactly(h: History, j: nat)
    requires Legal(h) && j <= |h.actions|
    ensures h.states[j].done <==> exists i :: 0 <= i < j && Stands(h, i, j)
  {
    if j > 0 {
      LatchExactly(h, j - 1);
      assert Step(h.states[j - 1], h.actions[j - 1], h.states[j]);
      if h.states[j].done {
        if h.states[j - 1].done {
          var i :| 0 <= i < j - 1 && Stands(h, i, j - 1);
          assert Stands(h, i, j);
        } else {
          assert Stands(h, j - 1, j);
        }
      } else if i :| 0 <= i < j && Stands(h, i, j) {
        assert i < j - 1 ==> Stands(h, i, j - 1);
      }
    }
  }

  /**
   A release's Checkpoint saves again exactly when no checkpoint has succeeded since progress was last forgotten, by a
   take-back or by the clearing of a held release.
   */
  lemma SavesExactlyWhenNoneStands(h: History, j: nat)
    requires Legal(h) && j < |h.actions| && h.actions[j].Checkpoints?
    ensures h.actions[j].r in h.states[j + 1].releases
    ensures h.states[j + 1].releases[h.actions[j].r].Saving? <==> forall i :: 0 <= i < j ==> !Stands(h, i, j)
  {
    LatchExactly(h, j);
    assert Step(h.states[j], h.actions[j], h.states[j + 1]);
  }

  /** In particular, after a take-back or a held release's clearing, until a checkpoint succeeds. */
  lemma SavesAgainAfterForgetting(h: History, i: nat, j: nat)
    requires Legal(h) && i < j < |h.actions| && h.actions[i].Forgets? && h.actions[j].Checkpoints?
    requires forall k :: i < k < j ==> !(h.actions[k].SaveEnds? && h.actions[k].ok)
    ensures h.actions[j].r in h.states[j + 1].releases && h.states[j + 1].releases[h.actions[j].r].Saving?
  {
    SavesExactlyWhenNoneStands(h, j);
    assert forall m :: 0 <= m < j && Stands(h, m, j) ==> i <= m;
  }

  // ------------------------------------------------------------------------
  // What an overlapping drain's checkpoint may miss
  // ------------------------------------------------------------------------

  function Extended(h: History, a: Action): (k: History)
    requires Legal(h) && Enabled(Last(h.states), a)
    ensures Legal(k) && Last(k.states) == Apply(Last(h.states), a)
  {
    var k := History(h.actions + [a], h.states + [Apply(Last(h.states), a)]);
    assert forall i :: 0 <= i < |h.actions| ==> k.actions[i] == h.actions[i] && k.states[i + 1] == h.states[i + 1];
    k
  }

  /** A warm release has checkpointed, and the session has worked since. */
  lemma WarmCheckpointThenWork() returns (h: History)
    ensures Legal(h) && Last(h.states) == State(1, 0, true, None, [], false, true, map[1 := Past(0, true)])
  {
    h := Extended(History([], [Init()]), Begins(1));
    h := Extended(h, Checkpoints(1));
    h := Extended(h, SaveEnds(1, true));
    h := Extended(h, Works);
  }

  /** A drain then begins beside it and passes Checkpoint on the warm release's latch. */
  lemma DrainPassesOnTheLatch(h: History) returns (k: History)
    requires Legal(h) && !Last(h.states).barred && Last(h.states).done && Last(h.states).holder.None? &&
        2 !in Last(h.states).releases
    ensures Legal(k)
    ensures var s := Last(h.states);
            Last(k.states) == s.(barred := true, releases := s.releases[2 := Past(|s.marks|, true)])
  {
    k := Extended(h, Bars(Draining));
    k := Extended(k, Begins(2));
    k := Extended(k, Checkpoints(2));
    assert Last(h.states).releases[2 := Before][2 := Past(|Last(h.states).marks|, true)] ==
           Last(h.states).releases[2 := Past(|Last(h.states).marks|, true)];
  }

  /**
   A drain whose Checkpoint came before the warm release's take-back finishes with the work in between unsaved:
   coming after the take-back is what it lacks.
   */
  lemma OverlappingDrainMayFinishStale() returns (h: History)
    ensures Legal(h) && var s := Last(h.states);
            && 2 in s.releases && s.releases[2] == Finished(0, true)
            && |s.marks| == 1 && s.saved < s.marks[0]
  {
    h := WarmCheckpointThenWork();
    h := Extended(h, Aborts(1, false));
    h := DrainPassesOnTheLatch(h);
    h := Extended(h, Forgets(1));
    h := Extended(h, Finishes(2));
  }

  /** So does one whose Checkpoint came before a held warm release's clearing, the take-back refused for the drain. */
  lemma DrainAheadOfTheClearingMayFinishStale() returns (h: History)
    ensures Legal(h) && var s := Last(h.states);
            && 2 in s.releases && s.releases[2] == Finished(0, true)
            && |s.marks| == 1 && s.saved < s.marks[0] && !s.done
  {
    h := WarmCheckpointThenWork();
    h := DrainPassesOnTheLatch(h);
    h := Extended(h, Aborts(1, true));
    h := Extended(h, Records(1));
    h := Extended(h, Forgets(1));
    h := Extended(h, Finishes(2));
  }
}
