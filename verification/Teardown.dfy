/**
 One residency's runtime teardown: the graceful release and the crash-equivalent
 abandon, as one state machine under one mutex, with its waiters.
 */
module Teardown {
  import opened Base

  datatype Phase = Resident | Releasing | Abandoning | Released | Failed

  datatype Kind = Graceful | Abandon

  /** One runtime call.  Its outcome and hand-over are written once, as it completes. */
  datatype Flight = Flight(kind: Kind, done: bool, ok: bool, handedTo: Option<nat>)

  /** What the mutex guards.  `flight` indexes the latest of `flights`. */
  datatype Core = Core(phase: Phase, flight: nat, flights: seq<Flight>, pending: bool, registered: seq<nat>)

  /** A critical section's answer: the runtime has released, or the flight to wait for. */
  datatype Join = AlreadyReleased | Joins(flight: nat, mode: Mode)

  /** Take the flight's outcome; follow it into the abandon it handed over to; or decide again. */
  datatype Mode = Final | Follow | Retry

  function Elect(c: Core, kind: Kind): Core {
    c.(phase := if kind == Graceful then Releasing else Abandoning,
       flight := |c.flights|,
       flights := c.flights + [Flight(kind, false, false, None)])
  }

  function ReleaseSection(c: Core): (Core, Join) {
    match c.phase
    case Released => (c, AlreadyReleased)
    case Abandoning => (c, Joins(c.flight, Final))
    case Failed => (c, Joins(c.flight, Final))
    case Releasing => (c, Joins(c.flight, Follow))
    case Resident => (Elect(c, Graceful), Joins(|c.flights|, Follow))
  }

  function AbandonSection(c: Core): (Core, Join) {
    match c.phase
    case Released => (c, AlreadyReleased)
    case Abandoning => (c, Joins(c.flight, Final))
    case Failed => (c, Joins(c.flight, Final))
    case Releasing => (c.(pending := true), Joins(c.flight, Retry))
    case Resident => (Elect(c, Abandon), Joins(|c.flights|, Final))
  }

  predicate InFlight(c: Core) {
    (c.phase == Releasing || c.phase == Abandoning) && c.flight < |c.flights| && !c.flights[c.flight].done
  }

  /** The flight's own completion: the phase it moves to, the abandon it may start, the callbacks it frees. */
  function CompleteSection(c: Core, ok: bool, down: bool): (Core, seq<nat>)
    requires InFlight(c)
  {
    var f := c.flights[c.flight];
    if ok then
      (c.(phase := Released, pending := false, registered := [],
          flights := c.flights[c.flight := f.(done := true, ok := true)]), c.registered)
    else if f.kind == Graceful && !down then
      if c.pending then
        (Elect(c.(pending := false,
                  flights := c.flights[c.flight := f.(done := true, handedTo := Some(|c.flights|))]), Abandon), [])
      else
        (c.(phase := Resident, pending := false, flights := c.flights[c.flight := f.(done := true)]), [])
    else
      (c.(phase := Failed, pending := false, flights := c.flights[c.flight := f.(done := true)]), [])
  }

  function WhenReleasedSection(c: Core, callback: nat): (Core, seq<nat>) {
    if c.phase == Released then (c, [callback]) else (c.(registered := c.registered + [callback]), [])
  }

  // ------------------------------------------------------------------------
  // The machine with its callers, its runtime and its callbacks
  // ------------------------------------------------------------------------

  /**
   A caller: of `release` when its call is graceful, else of `abandon`.  `joined` is the flight it first joined,
   `waits` the one it waits for now; `decisions` counts the times it has taken the lock.
   */
  datatype Caller =
    | Waiting(call: Kind, mode: Mode, joined: nat, waits: nat, decisions: nat)
    | Redeciding(call: Kind, joined: nat, decisions: nat)
    | Answered(call: Kind, joined: nat, from: nat, ok: bool, decisions: nat)
    | AnsweredReleased(call: Kind, decisions: nat) // the phase already said so
    | GaveUp

  datatype State = State(
    core: Core, down: bool, callers: map<nat, Caller>,
    due: seq<nat>, ran: seq<nat>, callbacks: set<nat>,
    asked: bool) // some abandon call has taken the lock

  function Init(): State { State(Core(Resident, 0, [], false, []), false, map[], [], [], {}, false) }

  datatype Action =
    | CallRelease(caller: nat)
    | CallAbandon(caller: nat)
    | Redecide(caller: nat)
    | Observe(caller: nat)
    | GiveUp(caller: nat)
    | Completes(ok: bool)
    | RuntimeDown
    | Register(callback: nat)
    | RunCallback

  predicate Enabled(s: State, a: Action) {
    match a
    case CallRelease(c) => c !in s.callers
    case CallAbandon(c) => c !in s.callers
    case Redecide(c) => c in s.callers && s.callers[c].Redeciding?
    case Observe(c) =>
      c in s.callers && s.callers[c].Waiting? && s.callers[c].waits < |s.core.flights| &&
      s.core.flights[s.callers[c].waits].done
    case GiveUp(c) => c in s.callers && s.callers[c].Waiting?
    case Completes(_) => InFlight(s.core)
    case RuntimeDown => true
    case Register(callback) => callback !in s.callbacks
    case RunCallback => s.due != []
  }

  function Decided(call: Kind, join: Join, joined: Option<nat>, decisions: nat): Caller {
    match join
    case AlreadyReleased => AnsweredReleased(call, decisions)
    case Joins(f, mode) => Waiting(call, mode, if joined.Some? then joined.value else f, f, decisions)
  }

  /** What a waiter does once the flight it waits for is done. */
  function Observed(c: Caller, f: Flight): Caller
    requires c.Waiting?
  {
    if c.mode == Retry then Redeciding(c.call, c.joined, c.decisions)
    else if c.mode == Follow && !f.ok && f.handedTo.Some? then c.(mode := Final, waits := f.handedTo.value)
    else Answered(c.call, c.joined, c.waits, f.ok, c.decisions)
  }

  function Put(s: State, c: nat, caller: Caller): State { s.(callers := s.callers[c := caller]) }

  function Apply(s: State, a: Action): State
    requires Enabled(s, a)
  {
    match a
    case CallRelease(c) =>
      var (core, join) := ReleaseSection(s.core);
      Put(s, c, Decided(Graceful, join, None, 1)).(core := core)
    case CallAbandon(c) =>
      var (core, join) := AbandonSection(s.core);
      Put(s, c, Decided(Abandon, join, None, 1)).(core := core, asked := true)
    case Redecide(c) =>
      var (core, join) := AbandonSection(s.core);
      Put(s, c, Decided(s.callers[c].call, join, Some(s.callers[c].joined), s.callers[c].decisions + 1)).(core := core)
    case Observe(c) =>
      Put(s, c, Observed(s.callers[c], s.core.flights[s.callers[c].waits]))
    case GiveUp(c) => Put(s, c, GaveUp)
    case Completes(ok) =>
      var (core, freed) := CompleteSection(s.core, ok, s.down);
      s.(core := core, due := s.due + freed)
    case RuntimeDown => s.(down := true)
    case Register(callback) =>
      var (core, run) := WhenReleasedSection(s.core, callback);
      s.(core := core, due := s.due + run, callbacks := s.callbacks + {callback})
    case RunCallback => s.(due := s.due[1..], ran := s.ran + [s.due[0]])
  }

  predicate Step(s: State, a: Action, t: State) { Enabled(s, a) && t == Apply(s, a) }

  datatype History = History(actions: seq<Action>, states: seq<State>)

  predicate Legal(h: History) {
    && |h.states| == |h.actions| + 1 && h.states[0] == Init()
    && forall i {:trigger h.actions[i]} :: 0 <= i < |h.actions| ==> Step(h.states[i], h.actions[i], h.states[i + 1])
  }

  function Now(h: History): State
    requires Legal(h)
  {
    h.states[|h.actions|]
  }

  function Extended(h: History, a: Action): (k: History)
    requires Legal(h) && Enabled(Now(h), a)
    ensures Legal(k) && Now(k) == Apply(Now(h), a)
  {
    var k := History(h.actions + [a], h.states + [Apply(Now(h), a)]);
    assert forall i :: 0 <= i < |h.actions| ==> k.actions[i] == h.actions[i] && k.states[i + 1] == h.states[i + 1];
    k
  }

  // ------------------------------------------------------------------------
  // The invariant
  // ------------------------------------------------------------------------

  /**
   One flight at most is running, and it is the latest; an abandon is the latest too; a success ends in
   released and a terminal failure in failed; a pending abandon needs a running graceful flight.
   */
  ghost predicate CoreOk(c: Core) {
    && (c.phase != Resident ==> c.flights != [])
    && (c.flights != [] ==> c.flight == |c.flights| - 1)
    && (forall i :: 0 <= i < |c.flights| - 1 ==> c.flights[i].done && !c.flights[i].ok && c.flights[i].kind == Graceful)
    && (c.flights != [] ==> LatestOk(c, Last(c.flights)))
    && (c.pending ==> c.phase == Releasing)
    && (forall i :: 0 <= i < |c.flights| ==> HandedOk(c, i))
  }

  ghost predicate LatestOk(c: Core, f: Flight) {
    match c.phase
    case Resident => f.kind == Graceful && f.done && !f.ok
    case Releasing => f.kind == Graceful && !f.done && !f.ok
    case Abandoning => f.kind == Abandon && !f.done && !f.ok
    case Released => f.done && f.ok
    case Failed => f.done && !f.ok
  }

  /** A flight that handed over did so to the abandon that follows it. */
  ghost predicate HandedOk(c: Core, i: nat)
    requires i < |c.flights|
  {
    c.flights[i].handedTo.Some? ==>
      c.flights[i].done && !c.flights[i].ok && c.flights[i].handedTo.value == i + 1 < |c.flights| &&
      c.flights[i + 1].kind == Abandon
  }

  /** The flight, or the abandon it handed over to. */
  ghost predicate Continues(c: Core, joined: nat, from: nat) {
    joined < |c.flights| && from < |c.flights| &&
    (from == joined || c.flights[joined].handedTo == Some(from))
  }

  /**
   Where a caller that joined the flight is answered from: the abandon the flight failed and handed over to, or it.
   */
  ghost predicate AnsweredFrom(c: Core, joined: nat, from: nat) {
    && joined < |c.flights| && from < |c.flights|
    && (c.flights[joined].kind == Graceful ==> c.flights[joined].done)
    && (if !c.flights[joined].ok && c.flights[joined].handedTo.Some? then c.flights[joined].handedTo == Some(from)
        else from == joined)
  }

  /** An abandon goes by a graceful flight only once that has failed for good. */
  ghost predicate AbandonedFrom(c: Core, call: Kind, from: nat) {
    call == Abandon && from < |c.flights| && c.flights[from].kind == Graceful ==>
        c.phase == Failed && from == |c.flights| - 1
  }

  /** The joined graceful flight is over, and the machine's latest flight is it or the abandon it handed over to. */
  ghost predicate Superseded(c: Core, joined: nat) {
    c.phase != Releasing && c.phase != Resident && Continues(c, joined, c.flight)
  }

  /** After an abandon was asked for, the machine can only be finishing, abandoning, or over. */
  ghost predicate Dominated(c: Core) {
    c.phase != Resident && (c.phase == Releasing ==> c.pending)
  }

  ghost predicate CallerOk(s: State, c: Caller) {
    match c
    case Waiting(call, mode, joined, waits, decisions) =>
      && Continues(s.core, joined, waits)
      && (mode == Final ==> AnsweredFrom(s.core, joined, waits) && AbandonedFrom(s.core, call, waits))
      && (mode != Final ==> joined == waits)
      && (mode == Follow ==> call == Graceful)
      && (mode == Retry ==> call == Abandon && s.asked && decisions == 1)
      && (mode == Retry && s.core.flights[waits].done ==> Superseded(s.core, joined))
      && 1 <= decisions <= 2
    case Redeciding(call, joined, decisions) =>
      call == Abandon && s.asked && decisions == 1 && Superseded(s.core, joined)
    case Answered(call, joined, from, ok, decisions) =>
      && AnsweredFrom(s.core, joined, from) && AbandonedFrom(s.core, call, from)
      && s.core.flights[from].done && s.core.flights[from].ok == ok && 1 <= decisions <= 2
    case AnsweredReleased(_, decisions) => s.core.phase == Released && 1 <= decisions <= 2
    case GaveUp => true
  }

  /** Every callback is registered, due or run, exactly once in all, and none waits once the runtime has released. */
  ghost predicate CallbacksOk(s: State) {
    && multiset(s.core.registered) + multiset(s.due) + multiset(s.ran) == multiset(s.callbacks)
    && (s.core.phase == Released ==> s.core.registered == [])
    && (s.core.phase != Released ==> s.due == [] && s.ran == [])
  }

  /** Nothing is terminally failed by a graceful flight unless the runtime itself was torn down. */
  ghost predicate TornOk(s: State) {
    s.core.phase == Failed && s.core.flights != [] && Last(s.core.flights).kind == Graceful ==> s.down
  }

  ghost predicate Inv(s: State) {
    && CoreOk(s.core) && CallbacksOk(s)
    && (s.asked ==> Dominated(s.core))
    && TornOk(s)
    && (forall c :: c in s.callers ==> CallerOk(s, s.callers[c]))
  }

  // ------------------------------------------------------------------------
  // Each section keeps it
  // ------------------------------------------------------------------------

  /** A done flight never changes, flights only grow, and the end states are final. */
  ghost predicate Grows(s: Core, t: Core) {
    && |s.flights| <= |t.flights|
    && (forall i :: 0 <= i < |s.flights| ==>
          t.flights[i].kind == s.flights[i].kind && (s.flights[i].done ==> t.flights[i] == s.flights[i]))
    && (s.phase == Released || s.phase == Failed ==> t.phase == s.phase && t.flights == s.flights)
  }

  lemma GrowsTrans(s: Core, t: Core, u: Core)
    requires Grows(s, t) && Grows(t, u)
    ensures Grows(s, u)
  {
  }

  lemma ElectKeeps(c: Core, kind: Kind)
    requires CoreOk(c) && c.phase == Resident
    ensures CoreOk(Elect(c, kind)) && Grows(c, Elect(c, kind))
  {
    var d := Elect(c, kind);
    forall i | 0 <= i < |d.flights| ensures HandedOk(d, i) {
      if i < |c.flights| { assert HandedOk(c, i); }
    }
    if c.flights != [] { assert LatestOk(c, Last(c.flights)); }
  }

  lemma ReleaseKeeps(c: Core)
    requires CoreOk(c)
    ensures CoreOk(ReleaseSection(c).0) && Grows(c, ReleaseSection(c).0)
    ensures Dominated(c) ==> ReleaseSection(c).0 == c
  {
    if c.phase == Resident { ElectKeeps(c, Graceful); }
  }

  lemma AbandonKeeps(c: Core)
    requires CoreOk(c)
    ensures CoreOk(AbandonSection(c).0) && Grows(c, AbandonSection(c).0) && Dominated(AbandonSection(c).0)
    ensures Dominated(c) ==> AbandonSection(c).0 == c
  {
    if c.phase == Resident { ElectKeeps(c, Abandon); }
    if c.phase == Releasing {
      var d := c.(pending := true);
      forall i | 0 <= i < |d.flights| ensures HandedOk(d, i) { assert HandedOk(c, i); }
      assert LatestOk(c, Last(c.flights));
    }
  }

  lemma CompleteKeeps(c: Core, ok: bool, down: bool)
    requires CoreOk(c) && InFlight(c)
    ensures CoreOk(CompleteSection(c, ok, down).0) && Grows(c, CompleteSection(c, ok, down).0)
    ensures Dominated(c) ==> Dominated(CompleteSection(c, ok, down).0)
    ensures c.pending ==> Superseded(CompleteSection(c, ok, down).0, c.flight)
  {
    var d := CompleteSection(c, ok, down).0;
    assert LatestOk(c, Last(c.flights)) && Last(c.flights) == c.flights[c.flight];
    assert HandedOk(c, c.flight);
    assert forall i :: 0 <= i < c.flight ==> d.flights[i] == c.flights[i];
    assert d.flights[c.flight].kind == c.flights[c.flight].kind;
    forall i | 0 <= i < |d.flights| ensures HandedOk(d, i) {
      if i < c.flight { assert HandedOk(c, i); }
    }
  }

  lemma RegisterKeeps(c: Core, callback: nat)
    requires CoreOk(c)
    ensures CoreOk(WhenReleasedSection(c, callback).0) && Grows(c, WhenReleasedSection(c, callback).0)
    ensures Dominated(c) ==> Dominated(WhenReleasedSection(c, callback).0)
  {
    var d := WhenReleasedSection(c, callback).0;
    forall i | 0 <= i < |d.flights| ensures HandedOk(d, i) { assert HandedOk(c, i); }
    if c.flights != [] { assert LatestOk(c, Last(c.flights)); }
  }

  lemma StepCore(s: State, a: Action)
    requires CoreOk(s.core) && (s.asked ==> Dominated(s.core)) && Enabled(s, a)
    ensures CoreOk(Apply(s, a).core) && Grows(s.core, Apply(s, a).core)
    ensures Apply(s, a).asked ==> Dominated(Apply(s, a).core)
  {
    match a
    case CallRelease(_) => ReleaseKeeps(s.core);
    case CallAbandon(_) => AbandonKeeps(s.core);
    case Redecide(_) => AbandonKeeps(s.core);
    case Completes(ok) => CompleteKeeps(s.core, ok, s.down);
    case Register(callback) => RegisterKeeps(s.core, callback);
    case _ =>
  }

  lemma StepCallbacks(s: State, a: Action)
    requires CoreOk(s.core) && CallbacksOk(s) && Enabled(s, a)
    ensures CallbacksOk(Apply(s, a))
  {
    match a
    case Completes(ok) => CompletesCounts(s, ok);
    case Register(callback) => RegisterCounts(s, callback);
    case RunCallback => RunCounts(s);
    case _ =>
  }

  lemma CompletesCounts(s: State, ok: bool)
    requires CallbacksOk(s) && InFlight(s.core)
    ensures CallbacksOk(Apply(s, Completes(ok)))
  {
    if ok { assert Apply(s, Completes(ok)).due == s.core.registered; }
  }

  lemma RunCounts(s: State)
    requires CallbacksOk(s) && s.due != []
    ensures CallbacksOk(Apply(s, RunCallback))
  {
    assert s.due == [s.due[0]] + s.due[1..];
  }

  lemma RegisterCounts(s: State, callback: nat)
    requires CallbacksOk(s) && callback !in s.callbacks
    ensures CallbacksOk(Apply(s, Register(callback)))
  {
    var t := Apply(s, Register(callback));
    assert multiset(t.callbacks) == multiset(s.callbacks) + multiset{callback};
    if s.core.phase == Released {
      assert multiset(t.due) == multiset(s.due) + multiset{callback};
    } else {
      assert multiset(t.core.registered) == multiset(s.core.registered) + multiset{callback};
    }
  }

  /** A caller that does not move keeps what it holds as the core grows. */
  lemma BystanderOk(s: State, a: Action, c: nat)
    requires CoreOk(s.core) && (s.asked ==> Dominated(s.core)) && Enabled(s, a)
    requires c in s.callers && CallerOk(s, s.callers[c])
    requires c in Apply(s, a).callers && Apply(s, a).callers[c] == s.callers[c]
    ensures CallerOk(Apply(s, a), s.callers[c])
  {
    StepCore(s, a);
    var q := s.callers[c];
    if q.Answered? || (q.Waiting? && q.mode == Final) {
      AnsweredFromStays(s.core, Apply(s, a).core, q.joined, if q.Answered? then q.from else q.waits);
    }
    match a
    case CallRelease(_) => ReleaseKeeps(s.core);
    case CallAbandon(_) => AbandonKeeps(s.core);
    case Redecide(_) => AbandonKeeps(s.core);
    case Completes(ok) => WaiterOk(s, ok, s.callers[c]);
    case _ =>
  }

  /** A flight's completion leaves every waiter with a flight it can go by. */
  lemma WaiterOk(s: State, ok: bool, caller: Caller)
    requires CoreOk(s.core) && (s.asked ==> Dominated(s.core)) && Enabled(s, Completes(ok)) && CallerOk(s, caller)
    ensures CallerOk(Apply(s, Completes(ok)), caller)
  {
    if caller.Answered? || (caller.Waiting? && caller.mode == Final) {
      StepCore(s, Completes(ok));
      AnsweredFromStays(s.core, Apply(s, Completes(ok)).core, caller.joined,
        if caller.Answered? then caller.from else caller.waits);
    }
    CompleteKeeps(s.core, ok, s.down);
    ContinuesGrows(s.core, Apply(s, Completes(ok)).core);
  }

  lemma ContinuesGrows(c: Core, d: Core)
    requires CoreOk(c) && Grows(c, d)
    ensures forall j, f :: Continues(c, j, f) ==> Continues(d, j, f)
  {
    forall j, f | Continues(c, j, f) ensures Continues(d, j, f) { assert HandedOk(c, j); }
  }

  /** Where a caller is answered from is settled as soon as the flight it joined is over. */
  lemma AnsweredFromStays(c: Core, d: Core, joined: nat, from: nat)
    requires CoreOk(c) && CoreOk(d) && Grows(c, d) && AnsweredFrom(c, joined, from)
    ensures AnsweredFrom(d, joined, from)
  {
    assert HandedOk(c, joined) && HandedOk(d, joined);
  }

  lemma ObserverOk(s: State, c: nat)
    requires CoreOk(s.core) && Enabled(s, Observe(c)) && CallerOk(s, s.callers[c])
    ensures CallerOk(Apply(s, Observe(c)), Apply(s, Observe(c)).callers[c])
  {
    assert HandedOk(s.core, s.callers[c].waits);
  }

  lemma DeciderOk(s: State, a: Action, c: nat)
    requires CoreOk(s.core) && (s.asked ==> Dominated(s.core)) && Enabled(s, a)
    requires a == CallRelease(c) || a == CallAbandon(c) || a == Redecide(c)
    requires a.Redecide? ==> CallerOk(s, s.callers[c])
    ensures CallerOk(Apply(s, a), Apply(s, a).callers[c])
  {
    StepCore(s, a);
    ContinuesGrows(s.core, Apply(s, a).core);
    if a.Redecide? && s.core.phase != Released { SupersededFrom(s.core, s.callers[c].joined); }
    if !a.Redecide? && (s.core.phase == Abandoning || s.core.phase == Failed) { SupersededFrom(s.core, s.core.flight); }
  }

  /** A flight that is over, or is the abandon, is answered from the machine's latest flight if that continues it. */
  lemma SupersededFrom(c: Core, joined: nat)
    requires CoreOk(c) && c.flights != [] && c.phase != Releasing && c.phase != Resident
    requires Continues(c, joined, c.flight)
    ensures AnsweredFrom(c, joined, c.flight)
  {
    assert HandedOk(c, joined) && HandedOk(c, c.flight) && LatestOk(c, Last(c.flights));
  }

  lemma MoverOk(s: State, a: Action, c: nat)
    requires Inv(s) && Enabled(s, a)
    requires a == CallRelease(c) || a == CallAbandon(c) || a == Redecide(c) || a == Observe(c)
    ensures CallerOk(Apply(s, a), Apply(s, a).callers[c])
  {
    if c in s.callers { assert CallerOk(s, s.callers[c]); }
    if a.Observe? { ObserverOk(s, c); } else { DeciderOk(s, a, c); }
  }

  lemma StepTorn(s: State, a: Action)
    requires Inv(s) && Enabled(s, a)
    ensures TornOk(Apply(s, a))
  {
    if a.Completes? { assert LatestOk(s.core, Last(s.core.flights)); }
  }

  lemma StepCaller(s: State, a: Action, c: nat)
    requires Inv(s) && Enabled(s, a) && c in Apply(s, a).callers
    ensures CallerOk(Apply(s, a), Apply(s, a).callers[c])
  {
    if a == CallRelease(c) || a == CallAbandon(c) || a == Redecide(c) || a == Observe(c) {
      MoverOk(s, a, c);
    } else if a != GiveUp(c) {
      assert CallerOk(s, s.callers[c]);
      BystanderOk(s, a, c);
    }
  }

  lemma StepInv(s: State, a: Action)
    requires Inv(s) && Enabled(s, a)
    ensures Inv(Apply(s, a))
  {
    var t := Apply(s, a);
    StepCore(s, a);
    StepCallbacks(s, a);
    StepTorn(s, a);
    forall c | c in t.callers ensures CallerOk(t, t.callers[c]) { StepCaller(s, a, c); }
  }

  lemma {:induction false} ReachableInv(h: History, i: nat)
    requires Legal(h) && i <= |h.actions|
    ensures Inv(h.states[i])
  {
    if i > 0 {
      ReachableInv(h, i - 1);
      assert Step(h.states[i - 1], h.actions[i - 1], h.states[i]);
      StepInv(h.states[i - 1], h.actions[i - 1]);
    }
  }

  lemma NextGrows(h: History, i: nat)
    requires Legal(h) && i < |h.actions|
    ensures Grows(h.states[i].core, h.states[i + 1].core) && (h.states[i].asked ==> h.states[i + 1].asked)
  {
    ReachableInv(h, i);
    assert Step(h.states[i], h.actions[i], h.states[i + 1]);
    StepCore(h.states[i], h.actions[i]);
  }

  lemma {:induction false} LaterGrows(h: History, i: nat, j: nat)
    requires Legal(h) && i <= j <= |h.actions|
    ensures Grows(h.states[i].core, h.states[j].core)
    ensures h.states[i].asked ==> h.states[j].asked
    decreases j
  {
    if i < j {
      LaterGrows(h, i, j - 1);
      NextGrows(h, j - 1);
      GrowsTrans(h.states[i].core, h.states[j - 1].core, h.states[j].core);
    }
  }

  // ------------------------------------------------------------------------
  // Theorems over whole runs
  // ------------------------------------------------------------------------

  /**
   At most one call is running, at most one was ever an abandon, and one pends only behind a running graceful call.
   */
  ghost predicate OneCall(c: Core) {
    && (forall f, g :: 0 <= f < g < |c.flights| ==> c.flights[f].done || c.flights[g].done)
    && (forall f, g :: 0 <= f < g < |c.flights| ==> c.flights[f].kind != Abandon || c.flights[g].kind != Abandon)
    && (c.pending ==> c.flights != [] && !Last(c.flights).done && Last(c.flights).kind == Graceful)
  }

  /**
   In every reachable state at most one runtime call is in flight, at most one abandon has ever been
   made, and a pending abandon exists only while a graceful flight runs.
   */
  lemma OneCallAtATime(h: History, i: nat)
    requires Legal(h) && i <= |h.actions|
    ensures OneCall(h.states[i].core)
  {
    ReachableInv(h, i);
    var c := h.states[i].core;
    assert c.flights != [] ==> LatestOk(c, Last(c.flights));
  }

  /** No runtime call follows a success or a terminal failure: every later state has the same calls and the same end. */
  lemma NoCallAfterTheEnd(h: History, i: nat, j: nat)
    requires Legal(h) && i <= j <= |h.actions|
    requires h.states[i].core.phase == Released || h.states[i].core.phase == Failed
    ensures h.states[j].core.phase == h.states[i].core.phase && h.states[j].core.flights == h.states[i].core.flights
  {
    LaterGrows(h, i, j);
  }

  /**
   Abandon dominates: once any abandon call has taken the lock, no graceful release is ever elected
   again; and when the graceful flight then running ends, its release succeeded, or the runtime was
   already torn down, or the abandon has been started, whether or not anyone still waits for it.
   */
  lemma AbandonDominates(h: History, i: nat, j: nat)
    requires Legal(h) && i < j <= |h.actions| && h.actions[i].CallAbandon?
    ensures var was, c := h.states[i + 1].core, h.states[j].core;
            && (forall f :: |was.flights| <= f < |c.flights| ==> c.flights[f].kind == Abandon)
            && c.flights != []
            && (Last(c.flights).done || Last(c.flights).kind == Abandon || c.pending)
            && (Last(c.flights).kind == Graceful && Last(c.flights).done ==>
                  Last(c.flights).ok || h.states[j].down)
  {
    assert Step(h.states[i], h.actions[i], h.states[i + 1]);
    LaterGrows(h, i + 1, j);
    ReachableInv(h, j);
    assert LatestOk(h.states[j].core, Last(h.states[j].core.flights));
    OnlyAbandonsOnceAsked(h, i + 1, j);
  }

  lemma {:induction false} OnlyAbandonsOnceAsked(h: History, i: nat, j: nat)
    requires Legal(h) && i <= j <= |h.actions| && h.states[i].asked
    ensures forall f :: |h.states[i].core.flights| <= f < |h.states[j].core.flights| ==>
        h.states[j].core.flights[f].kind == Abandon
    decreases j
  {
    if i < j {
      OnlyAbandonsOnceAsked(h, i, j - 1);
      LaterGrows(h, i, j - 1);
      ReachableInv(h, j - 1);
      assert Step(h.states[j - 1], h.actions[j - 1], h.states[j]);
      NoGracefulOnceDominated(h.states[j - 1], h.actions[j - 1]);
    }
  }

  lemma NoGracefulOnceDominated(s: State, a: Action)
    requires Inv(s) && s.asked && Enabled(s, a)
    ensures |s.core.flights| <= |Apply(s, a).core.flights|
    ensures forall f :: 0 <= f < |s.core.flights| ==> Apply(s, a).core.flights[f].kind == s.core.flights[f].kind
    ensures forall f :: |s.core.flights| <= f < |Apply(s, a).core.flights| ==>
        Apply(s, a).core.flights[f].kind == Abandon
  {
    StepCore(s, a);
  }

  /** An abandon call takes the lock at most twice. */
  lemma AbandonDecidesAtMostTwice(h: History, i: nat, caller: nat)
    requires Legal(h) && i <= |h.actions| && caller in h.states[i].callers && !h.states[i].callers[caller].GaveUp?
    ensures h.states[i].callers[caller].decisions <= 2
  {
    ReachableInv(h, i);
    assert CallerOk(h.states[i], h.states[i].callers[caller]);
  }

  /** The flight a caller joined, once it has joined one and for as long as it has not given up. */
  function JoinedBy(c: Caller): Option<nat> {
    match c
    case Waiting(_, _, joined, _, _) => Some(joined)
    case Redeciding(_, joined, _) => Some(joined)
    case Answered(_, joined, _, _, _) => Some(joined)
    case _ => None
  }

  function CallOf(c: Caller): Option<Kind> {
    if c.GaveUp? then None else Some(c.call)
  }

  ghost predicate Calls(a: Action, caller: nat) { a == CallRelease(caller) || a == CallAbandon(caller) }

  /** What a caller goes by ever after its call: the kind of call it made, and the flight it joined with it. */
  lemma {:induction false} JoinedStays(h: History, i: nat, j: nat, caller: nat)
    requires Legal(h) && i <= j <= |h.actions| && caller in h.states[i].callers
    ensures caller in h.states[j].callers
    ensures var was, now := h.states[i].callers[caller], h.states[j].callers[caller];
            && (CallOf(now).Some? ==> CallOf(now) == CallOf(was))
            && (JoinedBy(now).Some? ==> JoinedBy(now) == JoinedBy(was))
    decreases j
  {
    if i < j {
      JoinedStays(h, i, j - 1, caller);
      assert Step(h.states[j - 1], h.actions[j - 1], h.states[j]);
    }
  }

  /** A call finds the runtime released, or joins the machine's latest flight, which it may have started. */
  lemma CallJoinsLatest(h: History, i: nat, caller: nat)
    requires Legal(h) && i < |h.actions| && Calls(h.actions[i], caller)
    ensures caller in h.states[i + 1].callers
    ensures CallOf(h.states[i + 1].callers[caller]) ==
            Some(if h.actions[i].CallRelease? then Graceful else Abandon)
    ensures var c, now := h.states[i + 1].core, h.states[i + 1].callers[caller];
            if h.states[i].core.phase == Released then now.AnsweredReleased?
            else c.flights != [] && JoinedBy(now) == Some(|c.flights| - 1)
  {
    assert Step(h.states[i], h.actions[i], h.states[i + 1]);
    ReachableInv(h, i);
  }

  /**
   A caller of release or of abandon that is answered, other than because the runtime had already released, is answered
   from the abandon exactly when the flight its call joined failed and handed over to it, and otherwise from the flight
   it joined; in every later state too.  A nil answer means that the runtime is released, and an abandon is told a
   graceful release's failure only if the runtime is down.
   */
  lemma AnswersAreTheFlights(h: History, i: nat, j: nat, k: nat, caller: nat)
    requires Legal(h) && i < j <= k <= |h.actions| && Calls(h.actions[i], caller)
    ensures caller in h.states[j].callers
    ensures h.states[j].callers[caller].AnsweredReleased? ==> h.states[k].core.phase == Released
    ensures h.states[j].callers[caller].Answered? ==>
              var a, c, joined := h.states[j].callers[caller], h.states[k].core, |h.states[i + 1].core.flights| - 1;
              && 0 <= joined < |c.flights| && a.from < |c.flights|
              && (if !c.flights[joined].ok && c.flights[joined].handedTo.Some?
                  then c.flights[joined].handedTo == Some(a.from) && c.flights[a.from].kind == Abandon
                  else a.from == joined)
              && c.flights[a.from].done && c.flights[a.from].ok == a.ok
              && (a.ok ==> c.phase == Released)
              && (h.actions[i].CallAbandon? && c.flights[a.from].kind == Graceful ==> h.states[k].down)
  {
    CallJoinsLatest(h, i, caller);
    JoinedStays(h, i + 1, j, caller);
    ReachableInv(h, j);
    ReachableInv(h, k);
    LaterGrows(h, j, k);
    if h.states[j].callers[caller].Answered? { AnswerStands(h.states[j], h.states[k], h.states[j].callers[caller]); }
    assert CallerOk(h.states[j], h.states[j].callers[caller]);
  }

  lemma AnswerStands(s: State, t: State, a: Caller)
    requires Inv(s) && Inv(t) && Grows(s.core, t.core) && a.Answered? && CallerOk(s, a)
    ensures var c := t.core;
            && a.joined < |c.flights| && a.from < |c.flights|
            && (if !c.flights[a.joined].ok && c.flights[a.joined].handedTo.Some?
                then c.flights[a.joined].handedTo == Some(a.from) && c.flights[a.from].kind == Abandon
                else a.from == a.joined)
            && c.flights[a.from].done && c.flights[a.from].ok == a.ok
            && (a.ok ==> c.phase == Released)
            && (a.call == Abandon && c.flights[a.from].kind == Graceful ==> t.down)
  {
    AnsweredFromStays(s.core, t.core, a.joined, a.from);
    assert HandedOk(t.core, a.joined) && LatestOk(t.core, Last(t.core.flights));
  }

  /**
   Each registered callback is run at most once, and only once the runtime has released; and once it
   has, none is left waiting: every one is run or about to be.
   */
  lemma CallbacksExactlyWhenReleased(h: History, i: nat, callback: nat)
    requires Legal(h) && i <= |h.actions|
    ensures var s := h.states[i];
            && multiset(s.ran)[callback] <= 1
            && (callback in s.ran || callback in s.due ==> s.core.phase == Released && callback in s.callbacks)
            && (s.core.phase == Released && callback in s.callbacks ==>
                  multiset(s.ran)[callback] + multiset(s.due)[callback] == 1)
            && (s.core.phase != Released && callback in s.callbacks ==> callback in s.core.registered)
  {
    ReachableInv(h, i);
    var s := h.states[i];
    assert multiset(s.core.registered)[callback] + multiset(s.due)[callback] + multiset(s.ran)[callback]
           == multiset(s.callbacks)[callback];
  }

  // ------------------------------------------------------------------------
  // The machine's object
  // ------------------------------------------------------------------------

  /** Each method is one critical section; the history is legal, and the fields are where it leads. */
  class Machine {
    var phase: Phase
    var flight: nat
    var flights: seq<Flight>
    var pendingAbandon: bool
    var onReleased: seq<nat>

    ghost var history: History

    function View(): Core
      reads this
    {
      Core(phase, flight, flights, pendingAbandon, onReleased)
    }

    ghost predicate Valid()
      reads this
    {
      Legal(history) && View() == Now(history).core
    }

    constructor ()
      ensures Valid() && history == History([], [Init()])
    {
      phase, flight, flights, pendingAbandon, onReleased := Resident, 0, [], false, [];
      history := History([], [Init()]);
    }

    /** The object took this one step. */
    twostate predicate Took(a: Action)
      reads this
    {
      Valid() && old(Valid()) && Enabled(Now(old(history)), a) && history == Extended(old(history), a)
    }

    /** Some abandon has taken the lock. */
    ghost predicate Asked()
      requires Legal(history)
      reads this
    {
      Now(history).asked
    }

    lemma Sound()
      requires Valid()
      ensures CoreOk(View()) && OneCall(View()) && (Asked() ==> Dominated(View()))
      ensures flights != [] ==> LatestOk(View(), Last(flights))
    {
      ReachableInv(history, |history.actions|);
      OneCallAtATime(history, |history.actions|);
    }

    /** A step that waiters, the runtime or a callback takes without the lock. */
    ghost method Elsewhere(a: Action)
      requires Valid() && Enabled(Now(history), a)
      requires a.Observe? || a.GiveUp? || a.RuntimeDown? || a.RunCallback?
      modifies this`history
      ensures Took(a)
    {
      history := Extended(history, a);
    }

    method ElectLocked(kind: Kind) returns (f: nat)
      modifies this`phase, this`flight, this`flights
      ensures View() == Elect(old(View()), kind) && f == flight
    {
      f := |flights|;
      flights := flights + [Flight(kind, false, false, None)];
      flight := f;
      phase := if kind == Graceful then Releasing else Abandoning;
    }

    /** Joins the latest flight, which it starts only if nothing was ever abandoned; released is answered at once. */
    method Release(ghost caller: nat) returns (join: Join)
      requires Valid() && caller !in Now(history).callers
      modifies this
      ensures Took(CallRelease(caller)) && OneCall(View())
      ensures join.AlreadyReleased? <==> phase == Released
      ensures join.Joins? ==> join.flight == |flights| - 1
      ensures old(Asked()) ==> flights == old(flights)
      // Only a resident runtime is released, and then by one new graceful call.
      ensures old(phase) != Resident ==> View() == old(View())
      ensures old(phase) == Resident ==>
                && phase == Releasing && flights == old(flights) + [Flight(Graceful, false, false, None)]
                && pendingAbandon == old(pendingAbandon) && onReleased == old(onReleased)
      // A running graceful call is followed into what it may hand over to; anything else is gone by as it ends.
      ensures join.Joins? ==> join.mode == if phase == Releasing then Follow else Final
    {
      Sound();
      history := Extended(history, CallRelease(caller));
      match phase {
        case Released => join := AlreadyReleased;
        case Abandoning => join := Joins(flight, Final);
        case Failed => join := Joins(flight, Final);
        case Releasing => join := Joins(flight, Follow);
        case Resident =>
          var f := ElectLocked(Graceful);
          join := Joins(f, Follow);
      }
      Sound();
    }

    /** One decision of abandon: from here on the runtime is never left resident, whoever waits. */
    method AbandonOnce(ghost caller: nat, ghost again: bool) returns (join: Join)
      requires Valid() && Enabled(Now(history), if again then Redecide(caller) else CallAbandon(caller))
      modifies this
      ensures Took(if again then Redecide(caller) else CallAbandon(caller)) && OneCall(View())
      ensures Asked() && Dominated(View())
      ensures join.AlreadyReleased? <==> phase == Released
      ensures join.Joins? ==> join.flight == |flights| - 1
      ensures join.Joins? && join.mode == Retry ==> pendingAbandon && Last(flights).kind == Graceful
      ensures join.Joins? && join.mode != Retry ==> phase == Failed || Last(flights).kind == Abandon
      // A resident runtime is abandoned at once; one being released is cancelled into the abandon it is made to owe.
      ensures old(phase) == Resident ==>
                phase == Abandoning && flights == old(flights) + [Flight(Abandon, false, false, None)]
      ensures old(phase) != Resident ==> phase == old(phase) && flights == old(flights)
      ensures pendingAbandon == (old(pendingAbandon) || phase == Releasing) && onReleased == old(onReleased)
      ensures join.Joins? ==> join.mode == if phase == Releasing then Retry else Final
    {
      Sound();
      ReachableInv(history, |history.actions|);
      if again { assert CallerOk(Now(history), Now(history).callers[caller]); }
      history := Extended(history, if again then Redecide(caller) else CallAbandon(caller));
      match phase {
        case Released => join := AlreadyReleased;
        case Abandoning => join := Joins(flight, Final);
        case Failed => join := Joins(flight, Final);
        case Releasing =>
          pendingAbandon := true; // the flight's completion honours it
          join := Joins(flight, Retry);
        case Resident =>
          var f := ElectLocked(Abandon);
          join := Joins(f, Final);
      }
      Sound();
    }

    /** A flight ends: its outcome is written for good, and a pending abandon is started with or without its waiter. */
    method Complete(ok: bool, down: bool) returns (callbacks: seq<nat>)
      requires Valid() && InFlight(View()) && down == Now(history).down
      modifies this
      ensures Took(Completes(ok)) && OneCall(View())
      ensures phase == Released <==> ok
      // Nothing was torn down by a graceful call that failed with the runtime up and no abandon owed.
      ensures phase == Resident <==>
                !ok && !down && old(View().flights[View().flight].kind) == Graceful && !old(pendingAbandon)
      ensures phase == Abandoning <==>
                !ok && !down && old(View().flights[View().flight].kind) == Graceful && old(pendingAbandon)
      ensures phase != Releasing && !pendingAbandon
      // Its outcome, and its hand-over if there is one, are written for good; the abandon handed over to is in flight.
      ensures old(flight) < |old(flights)| && flights ==
                old(flights)[old(flight) := Flight(old(View().flights[View().flight].kind), true, ok,
                  if phase == Abandoning then Some(|old(flights)|) else None)] +
                (if phase == Abandoning then [Flight(Abandon, false, false, None)] else [])
      ensures callbacks == (if ok then old(onReleased) else []) && onReleased == if ok then [] else old(onReleased)
      ensures Asked() ==> phase != Resident
    {
      Sound();
      assert HandedOk(View(), flight);
      history := Extended(history, Completes(ok));
      var mine := flight;
      var kind := flights[mine].kind;
      callbacks := [];
      var pending := pendingAbandon;
      pendingAbandon := false;
      if ok {
        phase := Released;
        callbacks, onReleased := onReleased, [];
        flights := flights[mine := flights[mine].(done := true, ok := true)];
      } else if kind == Graceful && !down {
        if pending {
          flights := flights[mine := flights[mine].(done := true, handedTo := Some(|flights|))];
          var _ := ElectLocked(Abandon);
        } else {
          phase := Resident;
          flights := flights[mine := flights[mine].(done := true)];
        }
      } else {
        phase := Failed;
        flights := flights[mine := flights[mine].(done := true)];
      }
      Sound();
    }

    /** A callback is run now, or kept for the release: never both, and never lost. */
    method WhenReleased(callback: nat) returns (run: seq<nat>)
      requires Valid() && callback !in Now(history).callbacks
      modifies this
      ensures Took(Register(callback))
      ensures run == (if phase == Released then [callback] else [])
      ensures multiset(run)[callback] + multiset(onReleased)[callback] == 1
      ensures phase == old(phase) && flights == old(flights)
    {
      Sound();
      CallbacksExactlyWhenReleased(history, |history.actions|, callback);
      ReachableInv(history, |history.actions|);
      assert multiset(onReleased) <= multiset(Now(history).callbacks);
      history := Extended(history, Register(callback));
      if phase != Released {
        onReleased := onReleased + [callback];
        return [];
      }
      return [callback];
    }
  }
}
