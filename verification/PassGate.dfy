/**
 The one-slot pass semaphore, the halt flag and the drain's halt latch, under any
 interleaving of passes, warm halts, warm resumes and drains of one session.

 Each action is one critical section or one channel operation.  A task is a
 goroutine: a pass, or a halt waiting for the slot.
 */
module PassGate {
  import opened Base

  datatype Task =
    | PassParked        // wants the slot
    | PassHolding       // holds the slot, has not read the flag
    | PassRunning       // read the flag clear: may call the Processor
    | DrainLatched      // latched the resident, has not yet set the flag
    | HaltWaiting       // set the flag, waits for the slot
    | HaltReturned      // got the slot and gave it back: Halt answered nil

  datatype State = State(
    slot: Option<nat>, halted: bool, latched: bool, tracked: bool, tasks: map<nat, Task>)

  function Init(): State { State(None, false, false, true, map[]) }

  datatype Action =
    | StartPass(task: nat)
    | AcquirePass(task: nat)
    | ReadFlag(task: nat)
    | CallProcessor(task: nat)
    | EndPass(task: nat)
    | SetHalted(task: nat)   // a warm release's Halt
    | Latch(task: nat)       // a drain's halt, under the service's lock
    | DrainHalts(task: nat)  // the same drain's Consumer.Halt
    | HaltAcquires(task: nat)
    | HaltGivesUp(task: nat)
    | Resume
    | Untrack

  predicate Is(s: State, task: nat, t: Task) { task in s.tasks && s.tasks[task] == t }

  predicate Enabled(s: State, a: Action) {
    match a
    case StartPass(p) => p !in s.tasks
    case AcquirePass(p) => Is(s, p, PassParked) && s.slot.None?
    case ReadFlag(p) => Is(s, p, PassHolding)
    case CallProcessor(p) => Is(s, p, PassRunning)
    case EndPass(p) => Is(s, p, PassRunning)
    case SetHalted(p) => p !in s.tasks
    case Latch(p) => p !in s.tasks && s.tracked
    case DrainHalts(p) => Is(s, p, DrainLatched)
    case HaltAcquires(p) => Is(s, p, HaltWaiting) && s.slot.None?
    case HaltGivesUp(p) => Is(s, p, HaltWaiting)
    case Resume => true
    case Untrack => true
  }

  function Put(s: State, p: nat, t: Task): State { s.(tasks := s.tasks[p := t]) }

  function Apply(s: State, a: Action): State
    requires Enabled(s, a)
  {
    match a
    case StartPass(p) => Put(s, p, PassParked)
    case AcquirePass(p) => Put(s, p, PassHolding).(slot := Some(p))
    case ReadFlag(p) =>
      if s.halted then s.(slot := None, tasks := s.tasks - {p}) else Put(s, p, PassRunning)
    case CallProcessor(p) => s
    case EndPass(p) => s.(slot := None, tasks := s.tasks - {p})
    case SetHalted(p) => Put(s, p, HaltWaiting).(halted := true)
    case Latch(p) => Put(s, p, DrainLatched).(latched := true)
    case DrainHalts(p) => Put(s, p, HaltWaiting).(halted := true)
    case HaltAcquires(p) => Put(s, p, HaltReturned)
    case HaltGivesUp(p) => s.(tasks := s.tasks - {p})
    // The service refuses to undo a drain's halt of the resident it still tracks.
    case Resume => if s.tracked && s.latched then s else s.(halted := false)
    case Untrack => s.(tracked := false)
  }

  predicate Step(s: State, a: Action, t: State) { Enabled(s, a) && t == Apply(s, a) }

  datatype History = History(actions: seq<Action>, states: seq<State>)

  /** A run from the first pass on. */
  predicate Legal(h: History) {
    && |h.states| == |h.actions| + 1 && h.states[0] == Init()
    && forall i {:trigger h.actions[i]} :: 0 <= i < |h.actions| ==> Step(h.states[i], h.actions[i], h.states[i + 1])
  }

  /** A pass between taking and returning the slot is the slot's holder. */
  ghost predicate Inv(s: State) {
    forall p: nat :: Is(s, p, PassHolding) || Is(s, p, PassRunning) ==> s.slot == Some(p)
  }

  lemma StepInv(s: State, a: Action)
    requires Inv(s) && Enabled(s, a)
    ensures Inv(Apply(s, a))
  {
    var t := Apply(s, a);
    forall p: nat | Is(t, p, PassHolding) || Is(t, p, PassRunning) ensures t.slot == Some(p) {
      if p in s.tasks && s.tasks[p] == t.tasks[p] {
        assert Is(s, p, t.tasks[p]);
      }
      if a.ReadFlag? || a.EndPass? { assert Is(s, a.task, s.tasks[a.task]); }
    }
  }

  lemma {:induction false} ReachableInv(h: History, i: nat)
    requires Legal(h) && i <= |h.actions|
    ensures Inv(h.states[i])
  {
    if i > 0 {
      ReachableInv(h, i - 1);
      assert Step(h.states[i - 1], h.actions[i - 1], h.states[i]);
      StepInv(h.states[i - 1], h.actions[i - 1]);
    }
  }

  /** Halted, with no pass past its reading of the flag. */
  ghost predicate Quiet(s: State) { s.halted && forall p: nat :: !Is(s, p, PassRunning) }

  /** The action clears the halt in this state. */
  predicate Clears(s: State, a: Action) { a.Resume? && !(s.tracked && s.latched) }

  lemma QuietStep(s: State, a: Action)
    requires Quiet(s) && Enabled(s, a) && !Clears(s, a)
    ensures Quiet(Apply(s, a)) && !a.CallProcessor?
  {
    var t := Apply(s, a);
    forall p: nat ensures !Is(t, p, PassRunning) {
      assert !Is(s, p, PassRunning);
    }
  }

  /** The action sets the flag. */
  predicate Sets(a: Action) { a.SetHalted? || a.DrainHalts? }

  /** The flag was set at step m and nothing has cleared it by step j. */
  ghost predicate Stands(h: History, m: nat, j: nat)
    requires Legal(h) && j <= |h.actions|
  {
    m < j && Sets(h.actions[m]) && forall k :: m < k < j ==> !Clears(h.states[k], h.actions[k])
  }

  lemma FlagStep(s: State, a: Action)
    requires Enabled(s, a)
    ensures Apply(s, a).halted <==> Sets(a) || (s.halted && !Clears(s, a))
  {
  }

  lemma StandsNext(h: History, m: nat, j: nat)
    requires Legal(h) && m < j < |h.actions|
    ensures Stands(h, m, j + 1) <==> Stands(h, m, j) && !Clears(h.states[j], h.actions[j])
  {
  }

  lemma NextFlag(h: History, j: nat)
    requires Legal(h) && j < |h.actions|
    ensures h.states[j + 1].halted <==> Sets(h.actions[j]) || (h.states[j].halted && !Clears(h.states[j], h.actions[j]))
  {
    assert Step(h.states[j], h.actions[j], h.states[j + 1]);
    FlagStep(h.states[j], h.actions[j]);
  }

  lemma {:induction false} FlagStands(h: History, j: nat) returns (m: nat)
    requires Legal(h) && j <= |h.actions| && h.states[j].halted
    ensures Stands(h, m, j)
    decreases j
  {
    NextFlag(h, j - 1);
    if Sets(h.actions[j - 1]) {
      m := j - 1;
    } else {
      m := FlagStands(h, j - 1);
      StandsNext(h, m, j - 1);
    }
  }

  lemma {:induction false} StandsFlag(h: History, m: nat, j: nat)
    requires Legal(h) && j <= |h.actions| && Stands(h, m, j)
    ensures h.states[j].halted
    decreases j
  {
    NextFlag(h, j - 1);
    if m < j - 1 {
      StandsNext(h, m, j - 1);
      StandsFlag(h, m, j - 1);
    }
  }

  /** The flag is set exactly when some setting of it has not been cleared since. */
  lemma FlagExactly(h: History, j: nat)
    requires Legal(h) && j <= |h.actions|
    ensures h.states[j].halted <==> exists m :: 0 <= m < j && Stands(h, m, j)
  {
    if h.states[j].halted {
      var m := FlagStands(h, j);
    } else {
      forall m: nat | m < j ensures !Stands(h, m, j) {
        if Stands(h, m, j) { StandsFlag(h, m, j); }
      }
    }
  }

  lemma {:induction false} FlaggedHaltSilences(h: History, j: nat, k: nat)
    requires Legal(h) && j < k <= |h.actions| && h.actions[j].HaltAcquires? && h.states[j].halted
    requires forall m :: j < m < k ==> !Clears(h.states[m], h.actions[m])
    ensures Quiet(h.states[k]) && forall m :: j < m < k ==> !h.actions[m].CallProcessor?
    decreases k
  {
    if k == j + 1 {
      ReachableInv(h, j);
      assert Step(h.states[j], h.actions[j], h.states[j + 1]);
      var s, t := h.states[j], h.states[j + 1];
      forall p: nat ensures !Is(t, p, PassRunning) { assert !Is(s, p, PassRunning); }
    } else {
      FlaggedHaltSilences(h, j, k - 1);
      assert Step(h.states[k - 1], h.actions[k - 1], h.states[k]);
      QuietStep(h.states[k - 1], h.actions[k - 1]);
    }
  }

  /**
   A Halt that nobody resumes while it waits silences the consumer: from its return until a Resume takes
   effect, no pass calls the Processor.
   */
  lemma HaltSilences(h: History, i: nat, j: nat, k: nat)
    requires Legal(h) && i < j < k <= |h.actions| && Sets(h.actions[i])
    requires h.actions[j] == HaltAcquires(h.actions[i].task)
    requires forall m :: i < m < k ==> !Clears(h.states[m], h.actions[m])
    ensures forall m :: j < m < k ==> !h.actions[m].CallProcessor?
  {
    assert Stands(h, i, j);
    FlagExactly(h, j);
    FlaggedHaltSilences(h, j, k);
  }

  /** As a Halt returns, the consumer is quiet exactly when some setting of the flag has not been resumed since. */
  lemma QuietExactlyWhenUnresumed(h: History, j: nat)
    requires Legal(h) && j < |h.actions| && h.actions[j].HaltAcquires?
    ensures Quiet(h.states[j + 1]) <==> exists m :: 0 <= m < j && Stands(h, m, j)
  {
    FlagExactly(h, j);
    NextFlag(h, j);
    if h.states[j].halted { FlaggedHaltSilences(h, j, j + 1); }
  }

  /**
   And if a Resume did run while the Halt waited out a pass, and the flag is clear, the halt stops nothing:
   a later pass runs and calls the Processor with no further Resume.
   */
  lemma UnflaggedHaltSilencesNothing(s: State, halt: nat, pass: nat) returns (actions: seq<Action>, states: seq<State>)
    requires Is(s, halt, HaltWaiting) && s.slot.None? && !s.halted && pass !in s.tasks
    ensures |actions| == 5 && |states| == 6 && states[0] == s && actions[0] == HaltAcquires(halt)
    ensures forall i {:trigger actions[i]} :: 0 <= i < |actions| ==>
        Step(states[i], actions[i], states[i + 1]) && !actions[i].Resume?
    ensures Last(actions) == CallProcessor(pass)
  {
    actions := [HaltAcquires(halt), StartPass(pass), AcquirePass(pass), ReadFlag(pass), CallProcessor(pass)];
    var s1 := Apply(s, actions[0]);
    var s2 := Apply(s1, actions[1]);
    var s3 := Apply(s2, actions[2]);
    var s4 := Apply(s3, actions[3]);
    states := [s, s1, s2, s3, s4, s4];
  }

  function Extended(h: History, a: Action): (k: History)
    requires Legal(h) && Enabled(Last(h.states), a)
    ensures Legal(k) && Last(k.states) == Apply(Last(h.states), a)
  {
    var k := History(h.actions + [a], h.states + [Apply(Last(h.states), a)]);
    assert forall i :: 0 <= i < |h.actions| ==> k.actions[i] == h.actions[i] && k.states[i + 1] == h.states[i + 1];
    k
  }

  lemma PassRuns() returns (h: History)
    ensures Legal(h) && Last(h.states) == State(Some(0), false, false, true, map[0 := PassRunning])
  {
    h := Extended(History([], [Init()]), StartPass(0));
    h := Extended(h, AcquirePass(0));
    h := Extended(h, ReadFlag(0));
  }

  /** Such a state is reached: a pass runs, a warm halt sets the flag and waits it out, and a Resume comes first. */
  lemma ResumeUnderAWaitingHalt() returns (h: History)
    ensures Legal(h) && var s := Last(h.states); Is(s, 1, HaltWaiting) && s.slot.None? && !s.halted
  {
    h := PassRuns();
    h := Extended(h, SetHalted(1));
    h := Extended(h, Resume);
    h := Extended(h, EndPass(0));
  }

  /** The service tracks the resident and its drain has latched it. */
  ghost predicate Latched(s: State) { s.tracked && s.latched }

  /**
   From the latch on, while the resident is tracked, no Resume takes effect: not before the drain sets the flag, not
   after.
   */
  lemma {:induction false} LatchHolds(h: History, i: nat, k: nat)
    requires Legal(h) && i < k <= |h.actions| && h.actions[i].Latch? && h.states[k].tracked
    ensures Latched(h.states[k]) && forall m :: i < m < k ==> !Clears(h.states[m], h.actions[m])
    decreases k
  {
    assert Step(h.states[i], h.actions[i], h.states[i + 1]);
    if i + 1 < k {
      assert Step(h.states[k - 1], h.actions[k - 1], h.states[k]);
      LatchHolds(h, i, k - 1);
    }
  }

  /**
   Once the latched drain has set the flag, it stays set however many warm releases resume, even while the drain
   waits.
   */
  lemma {:induction false} DrainHaltStays(h: History, i: nat, j: nat, k: nat)
    requires Legal(h) && i < j < k <= |h.actions| && h.actions[i].Latch? &&
        h.actions[j] == DrainHalts(h.actions[i].task)
    requires h.states[k].tracked
    ensures h.states[k].halted
    decreases k
  {
    assert Step(h.states[j], h.actions[j], h.states[j + 1]);
    if j + 1 < k {
      assert Step(h.states[k - 1], h.actions[k - 1], h.states[k]);
      DrainHaltStays(h, i, j, k - 1);
      LatchHolds(h, i, k - 1);
    }
  }

  /** So when the drain's halt answers nil, no pass of this session calls the Processor while it is tracked. */
  lemma DrainSilences(h: History, i: nat, j: nat, n: nat, k: nat)
    requires Legal(h) && i < j < n < k <= |h.actions| && h.actions[i].Latch?
    requires h.actions[j] == DrainHalts(h.actions[i].task) && h.actions[n] == HaltAcquires(h.actions[i].task)
    requires h.states[k].tracked
    ensures forall m :: n < m < k ==> !h.actions[m].CallProcessor?
  {
    LatchHolds(h, i, k);
    TrackedBefore(h, n, k);
    DrainHaltStays(h, i, j, n);
    FlaggedHaltSilences(h, n, k);
  }

  lemma {:induction false} TrackedBefore(h: History, i: nat, k: nat)
    requires Legal(h) && i <= k <= |h.actions| && h.states[k].tracked
    ensures h.states[i].tracked
    decreases k
  {
    if i < k {
      assert Step(h.states[k - 1], h.actions[k - 1], h.states[k]);
      TrackedBefore(h, i, k - 1);
    }
  }
}
