/**
 One Host's service lifecycle: starting, attaching, draining and disposing, each
 a critical section under one mutex, run by any number of threads.
 */
module Lifecycle {
  import opened Base

  type Key = nat

  /** What the mutex guards.  A session is held under a generation; `registry` is the routing view of it. */
  datatype Book = Book(
    started: bool, stopped: bool, starting: bool, draining: bool, disposed: bool,
    attaching: map<nat, Key>, attachSeq: nat, sessions: map<Key, nat>, registry: set<Key>)

  datatype StartAnswer = StartProceeds | StartRefused | StartDisposed
  datatype AttachAnswer = AttachEntered(id: nat) | AttachNotStarted | AttachDisposed
  datatype DrainAnswer = DrainBegun | DrainActive | DrainNotStarted | DrainDisposed
  datatype CloseAnswer = CloseBegins | CloseJoins | CloseActive

  function StartSection(b: Book): (Book, StartAnswer) {
    if b.disposed then (b, StartDisposed)
    else if b.started || b.stopped || b.starting || b.draining then (b, StartRefused)
    else (b.(starting := true), StartProceeds)
  }

  function StartEnds(b: Book, ok: bool): Book { b.(starting := false, started := b.started || ok) }

  function AttachSection(b: Book, key: Key): (Book, AttachAnswer) {
    if b.disposed then (b, AttachDisposed)
    else if !b.started then (b, AttachNotStarted)
    else (b.(attachSeq := b.attachSeq + 1, attaching := b.attaching[b.attachSeq + 1 := key]),
        AttachEntered(b.attachSeq + 1))
  }

  /** The commit point: refused once draining, or when the attach was cancelled. */
  function TrackSection(b: Book, key: Key, generation: nat, commit: bool): (Book, bool) {
    if b.draining || !commit then (b, false) else (b.(sessions := b.sessions[key := generation]), true)
  }

  function LeaveSection(b: Book, id: nat): Book { b.(attaching := b.attaching - {id}) }

  /** Fenced by generation: a release never forgets its successor. */
  function ForgetSection(b: Book, key: Key, generation: nat): Book {
    if key in b.sessions && b.sessions[key] == generation then b.(sessions := b.sessions - {key}) else b
  }

  function DrainSection(b: Book): (Book, DrainAnswer) {
    if b.disposed then (b, DrainDisposed)
    else if b.starting then (b, DrainActive)
    else if !b.started then (b, DrainNotStarted)
    else (b.(draining := true), DrainBegun)
  }

  function CloseSection(b: Book): (Book, CloseAnswer) {
    if b.disposed then (b, CloseJoins)
    else if b.starting || b.draining || b.started || b.stopped || |b.attaching| != 0 || |b.sessions| != 0 ||
        |b.registry| != 0 then
      (b, CloseActive)
    else (b.(disposed := true), CloseBegins)
  }

  // ------------------------------------------------------------------------
  // The service with its threads
  // ------------------------------------------------------------------------

  datatype Thread =
    | Publishing                                                  // in Start, between its two sections
    | Attaching(id: nat, key: Key)
    | Draining
    | Snapped(held: map<Key, nat>)                                // the drain has read the resident sessions
    | Awaiting(held: map<Key, nat>, since: nat, inflight: set<nat>)
    | Drained(held: map<Key, nat>, since: nat)
    | Closing                                                     // waits for the disposal's cleanup
    | Ended

  datatype State = State(
    book: Book, threads: map<nat, Thread>, used: set<nat>, // every generation a commit was asked for under
    cleanups: nat, outcome: Option<int>, answers: seq<int>)

  function Init(): State {
    State(Book(false, false, false, false, false, map[], 0, map[], {}), map[], {}, 0, None, [])
  }

  datatype Action =
    | CallStart(t: nat)
    | StartReturns(t: nat, ok: bool)
    | CallAttach(t: nat, key: Key)
    | Registers(t: nat)
    | Deregisters(key: Key)
    | Tracks(t: nat, generation: nat, commit: bool)
    | AttachReturns(t: nat)
    | Forgets(key: Key, generation: nat)
    | CallDrain(t: nat)
    | Snapshots(t: nat)
    | Awaits(t: nat)
    | AwaitEnds(t: nat)
    | Stops(t: nat)
    | CallClose(t: nat)
    | CleanupEnds(outcome: int)
    | CloseReturns(t: nat)

  predicate Is(s: State, t: nat) { t in s.threads }

  predicate Enabled(s: State, a: Action) {
    match a
    case CallStart(t) => t !in s.threads
    case StartReturns(t, _) => Is(s, t) && s.threads[t].Publishing?
    case CallAttach(t, _) => t !in s.threads
    case Registers(t) => Is(s, t) && s.threads[t].Attaching?
    case Deregisters(_) => true
    case Tracks(t, generation, _) => Is(s, t) && s.threads[t].Attaching? && generation !in s.used
    case AttachReturns(t) => Is(s, t) && s.threads[t].Attaching?
    case Forgets(_, _) => true
    case CallDrain(t) => t !in s.threads
    case Snapshots(t) => Is(s, t) && s.threads[t].Draining?
    case Awaits(t) => Is(s, t) && s.threads[t].Snapped?
    case AwaitEnds(t) => Is(s, t) && s.threads[t].Awaiting? && s.threads[t].inflight !! s.book.attaching.Keys
    case Stops(t) => Is(s, t) && s.threads[t].Drained?
    case CallClose(t) => t !in s.threads
    case CleanupEnds(_) => s.book.disposed && s.outcome.None?
    case CloseReturns(t) => Is(s, t) && s.threads[t].Closing? && s.outcome.Some?
  }

  function Put(s: State, t: nat, thread: Thread): State { s.(threads := s.threads[t := thread]) }

  function Apply(s: State, a: Action): State
    requires Enabled(s, a)
  {
    match a
    case CallStart(t) =>
      var (book, r) := StartSection(s.book);
      Put(s, t, if r.StartProceeds? then Publishing else Ended).(book := book)
    case StartReturns(t, ok) => Put(s, t, Ended).(book := StartEnds(s.book, ok))
    case CallAttach(t, key) =>
      var (book, r) := AttachSection(s.book, key);
      Put(s, t, if r.AttachEntered? then Attaching(r.id, key) else Ended).(book := book)
    case Registers(t) => s.(book := s.book.(registry := s.book.registry + {s.threads[t].key}))
    case Deregisters(key) => s.(book := s.book.(registry := s.book.registry - {key}))
    case Tracks(t, generation, commit) =>
      var (book, _) := TrackSection(s.book, s.threads[t].key, generation, commit);
      s.(book := book, used := s.used + {generation})
    case AttachReturns(t) => Put(s, t, Ended).(book := LeaveSection(s.book, s.threads[t].id))
    case Forgets(key, generation) => s.(book := ForgetSection(s.book, key, generation))
    case CallDrain(t) =>
      var (book, r) := DrainSection(s.book);
      Put(s, t, if r.DrainBegun? then Draining else Ended).(book := book)
    case Snapshots(t) => Put(s, t, Snapped(s.book.sessions))
    case Awaits(t) => Put(s, t, Awaiting(s.threads[t].held, s.book.attachSeq, s.book.attaching.Keys))
    case AwaitEnds(t) => Put(s, t, Drained(s.threads[t].held, s.threads[t].since))
    case Stops(t) => Put(s, t, Ended).(book := s.book.(stopped := true))
    case CallClose(t) =>
      var (book, r) := CloseSection(s.book);
      Put(s, t, if r.CloseActive? then Ended else Closing).(
        book := book, cleanups := s.cleanups + if r.CloseBegins? then 1 else 0)
    case CleanupEnds(outcome) => s.(outcome := Some(outcome))
    case CloseReturns(t) => Put(s, t, Ended).(answers := s.answers + [s.outcome.value])
  }

  predicate Step(s: State, a: Action, t: State) { Enabled(s, a) && t == Apply(s, a) }

  datatype History = History(actions: seq<Action>, states: seq<State>)

  predicate Legal(h: History) {
    && |h.states| == |h.actions| + 1 && h.states[0] == Init()
    && forall i {:trigger h.actions[i]} :: 0 <= i < |h.actions| ==> Step(h.states[i], h.actions[i], h.states[i + 1])
  }

  function Now(h: History): State
    requires Legal(h)
  {
    h.states[|h.actions|]
  }

  function Extended(h: History, a: Action): (k: History)
    requires Legal(h) && Enabled(Now(h), a)
    ensures Legal(k) && Now(k) == Apply(Now(h), a)
  {
    var k := History(h.actions + [a], h.states + [Apply(Now(h), a)]);
    assert forall i :: 0 <= i < |h.actions| ==> k.actions[i] == h.actions[i] && k.states[i + 1] == h.states[i + 1];
    k
  }

  // ------------------------------------------------------------------------
  // The invariant
  // ------------------------------------------------------------------------

  /** Nothing a disposal excludes. */
  predicate Quiet(b: Book) {
    && !b.started && !b.stopped && !b.starting && !b.draining
    && b.attaching == map[] && b.sessions == map[] && b.registry == {}
  }

  /** Every session held is one the drain's snapshot names, under the generation it names. */
  ghost predicate Covers(held: map<Key, nat>, sessions: map<Key, nat>) {
    forall k :: k in sessions ==> k in held && held[k] == sessions[k]
  }

  ghost predicate ThreadOk(s: State, t: nat, thread: Thread) {
    match thread
    case Publishing => s.book.starting && !s.book.disposed && !s.book.draining &&
                       forall u :: u in s.threads && s.threads[u].Publishing? ==> u == t
    case Attaching(id, key) =>
      id in s.book.attaching && !s.book.disposed &&
      forall u :: u in s.threads && s.threads[u].Attaching? && s.threads[u].id == id ==> u == t
    case Draining => s.book.draining
    case Snapped(held) => s.book.draining && Covers(held, s.book.sessions)
    case Awaiting(held, since, inflight) =>
      && s.book.draining && Covers(held, s.book.sessions) && since <= s.book.attachSeq
      && forall id :: id in s.book.attaching && id <= since ==> id in inflight
    case Drained(held, since) =>
      && s.book.draining && Covers(held, s.book.sessions) && since <= s.book.attachSeq
      && forall id :: id in s.book.attaching ==> since < id
    case Closing => s.book.disposed
    case Ended => true
  }

  ghost predicate BookOk(s: State) {
    && (s.book.disposed ==> Quiet(s.book))
    && (forall id :: id in s.book.attaching ==> id <= s.book.attachSeq)
    && (s.book.draining || s.book.stopped || s.book.attaching != map[] || s.book.sessions != map[] ==> s.book.started)
    && (s.book.stopped ==> s.book.draining)
  }

  ghost predicate CleanupOk(s: State) {
    && s.cleanups == (if s.book.disposed then 1 else 0)
    && (s.outcome.Some? ==> s.book.disposed)
    && (s.answers != [] ==> s.outcome.Some?)
    && (forall i :: 0 <= i < |s.answers| ==> s.answers[i] == s.outcome.value)
  }

  ghost predicate Inv(s: State) {
    BookOk(s) && CleanupOk(s) && forall t :: t in s.threads ==> ThreadOk(s, t, s.threads[t])
  }

  /** What no step undoes. */
  ghost predicate Grows(s: State, t: State) {
    && (s.book.disposed ==> t.book.disposed)
    && (s.book.draining ==> t.book.draining && Covers(s.book.sessions, t.book.sessions))
    && (s.outcome.Some? ==> t.outcome == s.outcome)
  }

  lemma StepGrows(s: State, a: Action)
    requires Enabled(s, a)
    ensures Grows(s, Apply(s, a))
  {
  }

  lemma StepBook(s: State, a: Action)
    requires Inv(s) && Enabled(s, a)
    ensures BookOk(Apply(s, a)) && CleanupOk(Apply(s, a))
  {
    if a.StartReturns? || a.Registers? || a.Tracks? || a.AttachReturns? || a.Stops? {
      assert ThreadOk(s, a.t, s.threads[a.t]);
    }
  }

  /** A thread that does not move keeps what it relies on. */
  lemma BystanderOk(s: State, a: Action, t: nat)
    requires BookOk(s) && Enabled(s, a) && t in s.threads && ThreadOk(s, t, s.threads[t])
    requires t in Apply(s, a).threads && Apply(s, a).threads[t] == s.threads[t]
    ensures ThreadOk(Apply(s, a), t, s.threads[t])
  {
  }

  /** A thread that moves may rely on what its step left. */
  lemma MoverOk(s: State, a: Action, t: nat)
    requires Inv(s) && Enabled(s, a) && t in Apply(s, a).threads
    requires t !in s.threads || Apply(s, a).threads[t] != s.threads[t]
    ensures ThreadOk(Apply(s, a), t, Apply(s, a).threads[t])
  {
    if t in s.threads { assert ThreadOk(s, t, s.threads[t]); }
    if a.CallStart? || a.CallAttach? {
      forall u | u in s.threads ensures ThreadOk(s, u, s.threads[u]) {}
    }
  }

  lemma StepInv(s: State, a: Action)
    requires Inv(s) && Enabled(s, a)
    ensures Inv(Apply(s, a))
  {
    StepBook(s, a);
    forall t | t in Apply(s, a).threads ensures ThreadOk(Apply(s, a), t, Apply(s, a).threads[t]) {
      if t in s.threads && Apply(s, a).threads[t] == s.threads[t] { BystanderOk(s, a, t); } else { MoverOk(s, a, t); }
    }
  }

  // ------------------------------------------------------------------------
  // Theorems
  // ------------------------------------------------------------------------

  lemma {:induction false} ReachableInv(h: History, i: nat)
    requires Legal(h) && i <= |h.actions|
    ensures Inv(h.states[i])
  {
    if i > 0 {
      ReachableInv(h, i - 1);
      assert Step(h.states[i - 1], h.actions[i - 1], h.states[i]);
      StepInv(h.states[i - 1], h.actions[i - 1]);
    }
  }

  /**
   Once draining, no session is ever made resident: whatever is held later was held, under that generation, already.
   */
  lemma {:induction false} NoResidentOnceDraining(h: History, i: nat, j: nat)
    requires Legal(h) && i <= j <= |h.actions| && h.states[i].book.draining
    ensures h.states[j].book.draining && Covers(h.states[i].book.sessions, h.states[j].book.sessions)
    decreases j
  {
    if i < j {
      NoResidentOnceDraining(h, i, j - 1);
      assert Step(h.states[j - 1], h.actions[j - 1], h.states[j]);
      StepGrows(h.states[j - 1], h.actions[j - 1]);
    }
  }

  /**
   A drain that has taken its snapshot and waited for the attaches in flight leaves nothing uncovered: every
   session still held is in its snapshot, and every attach still in flight entered after it looked.
   */
  lemma DrainLeavesNothing(h: History, i: nat, t: nat)
    requires Legal(h) && i <= |h.actions| && t in h.states[i].threads && h.states[i].threads[t].Drained?
    ensures Covers(h.states[i].threads[t].held, h.states[i].book.sessions)
    ensures forall id :: id in h.states[i].book.attaching ==> h.states[i].threads[t].since < id
  {
    ReachableInv(h, i);
    assert ThreadOk(h.states[i], t, h.states[i].threads[t]);
  }

  /** The drain's thread has read the resident sessions. */
  predicate HasSnapshot(s: State, t: nat) {
    Is(s, t) && (s.threads[t].Snapped? || s.threads[t].Awaiting? || s.threads[t].Drained?)
  }

  lemma {:induction false} SnapshotOrigin(h: History, j: nat, t: nat) returns (i: nat)
    requires Legal(h) && j <= |h.actions| && HasSnapshot(h.states[j], t)
    ensures i < j && h.actions[i] == Snapshots(t) && h.states[j].threads[t].held == h.states[i].book.sessions
    decreases j
  {
    if j > 0 {
      assert Step(h.states[j - 1], h.actions[j - 1], h.states[j]);
      if h.actions[j - 1] == Snapshots(t) { i := j - 1; } else { i := SnapshotOrigin(h, j - 1, t); }
    }
  }

  lemma {:induction false} WaitOrigin(h: History, j: nat, t: nat) returns (m: nat)
    requires Legal(h) && j <= |h.actions| && HasSnapshot(h.states[j], t) && !h.states[j].threads[t].Snapped?
    ensures m < j && h.actions[m] == Awaits(t) && h.states[j].threads[t].since == h.states[m].book.attachSeq
    ensures HasSnapshot(h.states[m], t) && h.states[m].threads[t].held == h.states[j].threads[t].held
    decreases j
  {
    if j > 0 {
      assert Step(h.states[j - 1], h.actions[j - 1], h.states[j]);
      if h.actions[j - 1] == Awaits(t) { m := j - 1; } else { m := WaitOrigin(h, j - 1, t); }
    }
  }

  /**
   A drain stops the Host only after it read the resident sessions and then waited for the attaches in flight: every
   session still held was held as it read them, and every attach still in flight entered after it looked.
   */
  lemma StopsWithNothingLeft(h: History, j: nat) returns (i: nat, m: nat)
    requires Legal(h) && j < |h.actions| && h.actions[j].Stops?
    ensures i < m < j && h.actions[i] == Snapshots(h.actions[j].t) && h.actions[m] == Awaits(h.actions[j].t)
    ensures Covers(h.states[i].book.sessions, h.states[j].book.sessions)
    ensures forall id :: id in h.states[j].book.attaching ==> h.states[m].book.attachSeq < id
  {
    assert Step(h.states[j], h.actions[j], h.states[j + 1]);
    DrainLeavesNothing(h, j, h.actions[j].t);
    m := WaitOrigin(h, j, h.actions[j].t);
    i := SnapshotOrigin(h, m, h.actions[j].t);
  }

  lemma {:induction false} LaterGrows(h: History, i: nat, j: nat)
    requires Legal(h) && i <= j <= |h.actions|
    ensures h.states[i].book.disposed ==> h.states[j].book.disposed
    ensures h.states[i].outcome.Some? ==> h.states[j].outcome == h.states[i].outcome
    decreases j
  {
    if i < j {
      LaterGrows(h, i, j - 1);
      assert Step(h.states[j - 1], h.actions[j - 1], h.states[j]);
      StepGrows(h.states[j - 1], h.actions[j - 1]);
    }
  }

  /** A disposed Host is, and stays, one that never started, drained, attached or held anything. */
  lemma DisposalExcludes(h: History, i: nat, j: nat)
    requires Legal(h) && i <= j <= |h.actions| && h.states[i].book.disposed
    ensures h.states[j].book.disposed && Quiet(h.states[j].book)
  {
    LaterGrows(h, i, j);
    ReachableInv(h, j);
  }

  /** The owned store's cleanup begins exactly once on a disposed Host, and never on another. */
  lemma CleanupBeginsOnce(h: History, i: nat)
    requires Legal(h) && i <= |h.actions|
    ensures h.states[i].cleanups == if h.states[i].book.disposed then 1 else 0
  {
    ReachableInv(h, i);
  }

  /** Every waiter that is answered, early or late, gets the cleanup's one result. */
  lemma CleanupResultIsShared(h: History, i: nat, j: nat, a: nat, b: nat)
    requires Legal(h) && i <= j <= |h.actions| && a < |h.states[i].answers| && b < |h.states[j].answers|
    ensures h.states[i].answers[a] == h.states[j].answers[b]
  {
    ReachableInv(h, i);
    ReachableInv(h, j);
    LaterGrows(h, i, j);
  }

  // ------------------------------------------------------------------------
  // Generations
  // ------------------------------------------------------------------------

  /** The step makes a session resident under this key and generation. */
  ghost predicate MakesResident(h: History, i: nat, key: Key, generation: nat)
    requires Legal(h) && i < |h.actions|
  {
    && h.actions[i].Tracks? && h.actions[i].generation == generation
    && Is(h.states[i], h.actions[i].t) && h.states[i].threads[h.actions[i].t].Attaching?
    && h.states[i].threads[h.actions[i].t].key == key
    && h.actions[i].commit && !h.states[i].book.draining
  }

  lemma {:induction false} LaterUsed(h: History, i: nat, j: nat)
    requires Legal(h) && i <= j <= |h.actions|
    ensures h.states[i].used <= h.states[j].used
    decreases j
  {
    if i < j {
      LaterUsed(h, i, j - 1);
      assert Step(h.states[j - 1], h.actions[j - 1], h.states[j]);
    }
  }

  /** No generation is committed twice, in whatever order the minted ones reach their commits. */
  lemma GenerationsAreFresh(h: History, i: nat, j: nat)
    requires Legal(h) && i < j < |h.actions| && h.actions[i].Tracks? && h.actions[j].Tracks?
    ensures h.actions[i].generation in h.states[j].used && h.actions[i].generation != h.actions[j].generation
  {
    assert Step(h.states[i], h.actions[i], h.states[i + 1]);
    LaterUsed(h, i + 1, j);
    assert Step(h.states[j], h.actions[j], h.states[j + 1]);
  }

  /** Once replaced under its key, a used generation is never held there again. */
  lemma {:induction false} ReplacedForGood(h: History, i: nat, j: nat, key: Key, ended: nat)
    requires Legal(h) && i <= j <= |h.actions| && ended in h.states[i].used
    requires key in h.states[i].book.sessions ==> h.states[i].book.sessions[key] != ended
    ensures key in h.states[j].book.sessions ==> h.states[j].book.sessions[key] != ended
    decreases j
  {
    if i < j {
      ReplacedForGood(h, i, j - 1, key, ended);
      LaterUsed(h, i, j - 1);
      assert Step(h.states[j - 1], h.actions[j - 1], h.states[j]);
    }
  }

  /**
   However late a residency's end is recorded, it never forgets a successor tracked under the same key: it
   changes no session at all.
   */
  lemma EndNeverForgetsSuccessor(h: History, i: nat, m: nat, j: nat, key: Key, ended: nat, successor: nat)
    requires Legal(h) && i < m < j < |h.actions|
    requires MakesResident(h, i, key, ended) && MakesResident(h, m, key, successor) &&
             h.actions[j] == Forgets(key, ended)
    ensures h.states[j + 1].book.sessions == h.states[j].book.sessions
  {
    GenerationsAreFresh(h, i, m);
    assert Step(h.states[m], h.actions[m], h.states[m + 1]);
    ReplacedForGood(h, m + 1, j, key, ended);
    assert Step(h.states[j], h.actions[j], h.states[j + 1]);
  }

  // ------------------------------------------------------------------------
  // The service's object
  // ------------------------------------------------------------------------

  /** A disposal asked for now would be refused. */
  predicate Undisposable(b: Book) { !b.disposed && !Quiet(b) }

  /** The object whose critical sections the threads run: its history is legal and its fields are where that leads. */
  class Service {
    var started: bool
    var stopped: bool
    var starting: bool
    var draining: bool
    var disposed: bool
    var attaching: map<nat, Key>
    var attachSeq: nat
    var sessions: map<Key, nat>
    var registry: set<Key>

    ghost var history: History

    function View(): Book
      reads this
    {
      Book(started, stopped, starting, draining, disposed, attaching, attachSeq, sessions, registry)
    }

    ghost predicate Valid()
      reads this
    {
      Legal(history) && View() == Now(history).book
    }

    constructor ()
      ensures Valid() && history == History([], [Init()])
    {
      started, stopped, starting, draining, disposed := false, false, false, false, false;
      attaching, attachSeq, sessions, registry := map[], 0, map[], {};
      history := History([], [Init()]);
    }

    /** The object took this one step. */
    twostate predicate Took(a: Action)
      reads this
    {
      Valid() && old(Valid()) && Enabled(Now(old(history)), a) && history == Extended(old(history), a)
    }

    /** What disposal excludes, of the object as it stands. */
    lemma Excludes()
      requires Valid()
      ensures disposed ==> Quiet(View())
      ensures stopped ==> draining
      ensures draining || attaching != map[] || sessions != map[] ==> started
    {
      ReachableInv(history, |history.actions|);
    }

    /** A start that proceeds shuts disposal out until it returns, and for good if it succeeds. */
    method Start(ghost t: nat) returns (r: StartAnswer)
      requires Valid() && t !in Now(history).threads
      modifies this
      ensures Took(CallStart(t)) && (disposed ==> Quiet(View()))
      ensures r.StartProceeds? <==> t in Now(history).threads && Now(history).threads[t].Publishing?
      // It proceeds exactly on a Host that is none of these, and changes nothing else.
      ensures r.StartProceeds? <==> !old(disposed || started || stopped || starting || draining)
      ensures View() == old(View()).(starting := old(starting) || r.StartProceeds?)
      ensures r.StartProceeds? ==> Undisposable(View())
      ensures r.StartDisposed? <==> disposed
    {
      Excludes();
      history := Extended(history, CallStart(t));
      if disposed { return StartDisposed; }
      if started || stopped || starting || draining { return StartRefused; }
      starting := true;
      r := StartProceeds;
    }

    /** After the first publication, which the mutex is not held across. */
    method Published(ghost t: nat, ok: bool)
      requires Valid() && t in Now(history).threads && Now(history).threads[t].Publishing?
      modifies this
      ensures Took(StartReturns(t, ok)) && !disposed && (ok ==> Undisposable(View()))
      ensures View() == old(View()).(starting := false, started := old(started) || ok)
    {
      Excludes();
      ReachableInv(history, |history.actions|);
      assert ThreadOk(Now(history), t, Now(history).threads[t]);
      history := Extended(history, StartReturns(t, ok));
      starting := false;
      if ok { started := true; }
    }

    /** An attach that enters does so under an identity never used before, and shuts disposal out. */
    method Attach(ghost t: nat, key: Key) returns (r: AttachAnswer)
      requires Valid() && t !in Now(history).threads
      modifies this
      ensures Took(CallAttach(t, key)) && (disposed ==> Quiet(View()))
      ensures r.AttachEntered? ==> r.id !in old(attaching) && attaching == old(attaching)[r.id := key]
      ensures r.AttachEntered? <==> started && !disposed
      ensures r.AttachDisposed? <==> disposed
      ensures r.AttachEntered? ==> Undisposable(View())
      ensures View() == if r.AttachEntered? then old(View()).(attaching := attaching, attachSeq := r.id)
          else old(View())
    {
      Excludes();
      ReachableInv(history, |history.actions|);
      history := Extended(history, CallAttach(t, key));
      if disposed { return AttachDisposed; }
      if !started { return AttachNotStarted; }
      attachSeq := attachSeq + 1;
      attaching := attaching[attachSeq := key];
      r := AttachEntered(attachSeq);
    }

    /** The commit point: nothing becomes resident on a draining Host. */
    method TrackResident(ghost t: nat, key: Key, generation: nat, commit: bool) returns (tracked: bool)
      requires Valid() && t in Now(history).threads && Now(history).threads[t].Attaching?
      requires Now(history).threads[t].key == key && generation !in Now(history).used
      modifies this
      ensures Took(Tracks(t, generation, commit)) && !disposed
      ensures tracked <==> commit && !draining
      ensures sessions == if tracked then old(sessions)[key := generation] else old(sessions)
      ensures View() == old(View()).(sessions := sessions)
      ensures draining ==> Covers(old(sessions), sessions)
    {
      ReachableInv(history, |history.actions|);
      assert ThreadOk(Now(history), t, Now(history).threads[t]);
      history := Extended(history, Tracks(t, generation, commit));
      if draining { return false; }
      if !commit { return false; }
      sessions := sessions[key := generation];
      tracked := true;
    }

    method LeaveAttach(ghost t: nat, id: nat)
      requires Valid() && t in Now(history).threads && Now(history).threads[t].Attaching?
      requires Now(history).threads[t].id == id
      modifies this
      ensures Took(AttachReturns(t)) && View() == old(View()).(attaching := old(attaching) - {id})
    {
      history := Extended(history, AttachReturns(t));
      attaching := attaching - {id};
    }

    /** Ends the one residency named, and only that. */
    method Forget(key: Key, generation: nat)
      requires Valid()
      modifies this
      ensures Took(Forgets(key, generation)) && View() == old(View()).(sessions := sessions)
      ensures key in sessions ==> sessions[key] != generation
      ensures Covers(old(sessions), sessions)
      ensures forall k :: k in old(sessions) && k !in sessions ==> k == key && old(sessions)[k] == generation
    {
      history := Extended(history, Forgets(key, generation));
      var current := key in sessions && sessions[key] == generation;
      if current { sessions := sessions - {key}; }
    }

    /** A drain that begins has everything resident in front of it, and shuts disposal out for good. */
    method StartDrain(ghost t: nat) returns (r: DrainAnswer)
      requires Valid() && t !in Now(history).threads
      modifies this
      ensures Took(CallDrain(t)) && (disposed ==> Quiet(View()))
      ensures View() == old(View()).(draining := old(draining) || r.DrainBegun?)
      ensures r.DrainBegun? <==> started && !starting && !disposed
      ensures r.DrainBegun? ==> Undisposable(View())
      ensures r.DrainDisposed? <==> disposed
      ensures r.DrainActive? <==> !disposed && starting
    {
      Excludes();
      history := Extended(history, CallDrain(t));
      if disposed { return DrainDisposed; }
      if starting { return DrainActive; }
      if !started { return DrainNotStarted; }
      draining := true;
      r := DrainBegun;
    }

    /** A disposal begins exactly on a quiet Host; on a disposed one it joins the first; otherwise nothing changes. */
    method CloseUnstarted(ghost t: nat) returns (r: CloseAnswer)
      requires Valid() && t !in Now(history).threads
      modifies this
      ensures Took(CallClose(t)) && (disposed <==> !r.CloseActive?) && (disposed ==> Quiet(View()))
      ensures r.CloseBegins? <==> !old(disposed) && Quiet(old(View()))
      ensures View() == old(View()).(disposed := old(disposed) || r.CloseBegins?)
      ensures Now(history).cleanups == if disposed then 1 else 0
    {
      Excludes();
      history := Extended(history, CallClose(t));
      ReachableInv(history, |history.actions|);
      if disposed { return CloseJoins; }
      if starting || draining || started || stopped || |attaching| != 0 || |sessions| != 0 || |registry| != 0 {
        return CloseActive;
      }
      disposed := true;
      r := CloseBegins;
    }
  }
}
