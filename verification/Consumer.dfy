/**
 The ordered consumer: one bounded pass over the durable acceptance order, and
 the durable cursor it advances behind the commands it consumed.
 */
module Consumer {
  import opened Base
  import opened Fencing
  import opened Processors
  import Applier
  import Attestation

  // ------------------------------------------------------------------------
  // Pages
  // ------------------------------------------------------------------------

  /** One record of a page, as the store returned it: unchecked. */
  datatype PageRecord = PageRecord(scope: nat, validId: bool, known: bool, command: Applier.Command)

  datatype PageProblem =
    OverLimit | ForeignSession | InvalidCommandId | UnknownState | NotAfterCursor | NotMonotonic | DuplicateCommandId

  predicate Ordered(page: seq<PageRecord>, cursor: nat) {
    && (forall i :: 0 <= i < |page| ==> cursor < page[i].command.order)
    && (forall i, j :: 0 <= i < j < |page| ==> page[i].command.order < page[j].command.order)
  }

  predicate Unrepeated(page: seq<PageRecord>) {
    forall i, j :: 0 <= i < j < |page| ==> page[i].command.id != page[j].command.id
  }

  predicate Owned(page: seq<PageRecord>, scope: nat) {
    forall i :: 0 <= i < |page| ==> page[i].scope == scope && page[i].validId && page[i].known
  }

  /** A page a pass may act on. */
  predicate Conforming(page: seq<PageRecord>, scope: nat, cursor: nat, limit: nat) {
    |page| <= limit && Owned(page, scope) && Ordered(page, cursor) && Unrepeated(page)
  }

  /** What each problem says of the record it names. */
  predicate Breaks(page: seq<PageRecord>, scope: nat, cursor: nat, i: int, problem: PageProblem) {
    0 <= i < |page| &&
    match problem
    case OverLimit => false
    case ForeignSession => page[i].scope != scope
    case InvalidCommandId => page[i].scope == scope && !page[i].validId
    case UnknownState => page[i].scope == scope && page[i].validId && !page[i].known
    case NotAfterCursor => i == 0 && page[i].command.order <= cursor
    case NotMonotonic => i > 0 && page[i].command.order <= page[i - 1].command.order
    case DuplicateCommandId =>
      (i > 0 ==> page[i - 1].command.order < page[i].command.order) &&
      exists j :: 0 <= j < i && page[j].command.id == page[i].command.id
  }

  /** A page conforms only if each of its prefixes does. */
  lemma ConformingPrefix(page: seq<PageRecord>, n: nat, scope: nat, cursor: nat, limit: nat)
    requires n <= |page|
    ensures Conforming(page, scope, cursor, limit) ==> Conforming(page[..n], scope, cursor, limit)
  {
  }

  /** What one more record must satisfy for a conforming prefix to stay one. */
  predicate Continues(page: seq<PageRecord>, i: nat, scope: nat, cursor: nat)
    requires i < |page|
  {
    && page[i].scope == scope && page[i].validId && page[i].known
    && (if i == 0 then cursor else page[i - 1].command.order) < page[i].command.order
    && forall j :: 0 <= j < i ==> page[j].command.id != page[i].command.id
  }

  lemma ConformingNext(page: seq<PageRecord>, i: nat, scope: nat, cursor: nat, limit: nat)
    requires i < |page| <= limit && Conforming(page[..i], scope, cursor, limit)
    ensures Conforming(page[..i + 1], scope, cursor, limit) <==> Continues(page, i, scope, cursor)
  {
    var was, now := page[..i], page[..i + 1];
    assert forall j :: 0 <= j < i ==> now[j] == was[j] == page[j];
    assert now[i] == page[i];
    if Continues(page, i, scope, cursor) {
      assert i > 0 ==> was[i - 1].command.order < page[i].command.order;
    } else if Conforming(now, scope, cursor, limit) {
      assert i > 0 ==> now[i - 1].command.order < now[i].command.order;
    }
  }

  /** One record against the ones before it: no problem exactly when the page may go on with it. */
  method CheckRecord(page: seq<PageRecord>, i: nat, scope: nat, cursor: nat, previous: nat, seen: set<CommandId>)
    returns (problem: Option<PageProblem>)
    requires i < |page| && previous == if i == 0 then cursor else page[i - 1].command.order
    requires seen == set j | 0 <= j < i :: page[j].command.id
    ensures problem.None? <==> Continues(page, i, scope, cursor)
    ensures problem.Some? ==> !problem.value.OverLimit? && Breaks(page, scope, cursor, i, problem.value)
  {
    var record := page[i];
    if record.scope != scope { return Some(ForeignSession); }
    if !record.validId { return Some(InvalidCommandId); }
    if !record.known { return Some(UnknownState); }
    if record.command.order <= previous { return Some(if i == 0 then NotAfterCursor else NotMonotonic); }
    if record.command.id in seen { return Some(DuplicateCommandId); }
    problem := None;
  }

  /** Accepts exactly the conforming pages, and names the first record that breaks one. */
  method ValidatePage(page: seq<PageRecord>, scope: nat, cursor: nat, limit: nat)
    returns (problem: Option<PageProblem>, index: int)
    ensures problem.None? <==> Conforming(page, scope, cursor, limit)
    ensures problem.Some? && |page| <= limit ==>
              0 <= index < |page| && Conforming(page[..index], scope, cursor, limit) &&
              !Conforming(page[..index + 1], scope, cursor, limit)
    ensures problem == Some(OverLimit) <==> |page| > limit
    ensures problem.Some? && |page| <= limit ==> Breaks(page, scope, cursor, index, problem.value)
  {
    if |page| > limit { return Some(OverLimit), -1; }
    var previous := cursor;
    var seen: set<CommandId> := {};
    index := 0;
    while index < |page|
      invariant 0 <= index <= |page|
      invariant Conforming(page[..index], scope, cursor, limit)
      invariant previous == if index == 0 then cursor else page[index - 1].command.order
      invariant seen == set i | 0 <= i < index :: page[i].command.id
    {
      problem := CheckRecord(page, index, scope, cursor, previous, seen);
      ConformingNext(page, index, scope, cursor, limit);
      if problem.Some? {
        ConformingPrefix(page, index + 1, scope, cursor, limit);
        return;
      }
      previous := page[index].command.order;
      seen := seen + {page[index].command.id};
      index := index + 1;
    }
    assert page[..index] == page;
    return None, -1;
  }

  // ------------------------------------------------------------------------
  // What a pass hands over
  // ------------------------------------------------------------------------

  type Command = Applier.Command

  /** The commands a pass hands to its Processor from a page's first n records: those not already terminal. */
  function Unfinished(page: seq<PageRecord>, n: nat): seq<Command>
    requires n <= |page|
  {
    if n == 0 then []
    else if Terminal(page[n - 1].command.state) then Unfinished(page, n - 1)
    else Unfinished(page, n - 1) + [page[n - 1].command]
  }

  /** What one record adds to that. */
  function Adds(r: PageRecord): seq<Command> { if Terminal(r.command.state) then [] else [r.command] }

  predicate Increasing(commands: seq<Command>, above: nat, upto: nat) {
    && (forall i :: 0 <= i < |commands| ==> above < commands[i].order <= upto)
    && (forall i, j :: 0 <= i < j < |commands| ==> commands[i].order < commands[j].order)
  }

  /** What was handed over is the unfinished part of the page's first k records, ending with the one it stopped at. */
  ghost predicate HandedTo(was: seq<Command>, now: seq<Command>, page: seq<PageRecord>, blocked: Option<Command>,
      k: nat) {
    && k <= |page| && now == was + Unfinished(page, k)
    && (blocked.Some? ==> k > 0 && page[k - 1].command == blocked.value)
  }

  lemma HandedNext(was: seq<Command>, now: seq<Command>, page: seq<PageRecord>, i: nat)
    requires i < |page| && HandedTo(was, now, page, None, i)
    ensures HandedTo(was, now + Adds(page[i]), page, None, i + 1)
    ensures HandedTo(was, now + Adds(page[i]), page, Some(page[i].command), i + 1)
  {
    assert was + Unfinished(page, i) + Adds(page[i]) == was + Unfinished(page, i + 1);
  }

  /** The order a pass has consumed through after the page's first i records. */
  function Through(page: seq<PageRecord>, cursor: nat, i: nat): nat
    requires i <= |page|
  {
    if i == 0 then cursor else page[i - 1].command.order
  }

  /** They are handed over in strictly increasing acceptance order, so none twice. */
  lemma {:induction false} UnfinishedAscends(page: seq<PageRecord>, cursor: nat, n: nat)
    requires Ordered(page, cursor) && n <= |page|
    ensures Increasing(Unfinished(page, n), cursor, Through(page, cursor, n))
  {
    if n > 0 {
      UnfinishedAscends(page, cursor, n - 1);
    }
  }

  /** Orders are integers that strictly increase, so a full page's last one is at least a batch past the cursor. */
  lemma {:induction false} FullPageAdvances(page: seq<PageRecord>, cursor: nat)
    requires Ordered(page, cursor) && page != []
    ensures cursor + |page| <= Last(page).command.order
    decreases |page|
  {
    if |page| > 1 {
      FullPageAdvances(page[..|page| - 1], cursor);
      assert page[|page| - 2].command.order < page[|page| - 1].command.order;
    }
  }

  /** What a page says of each command to the durable cursor. */
  function Rows(page: seq<PageRecord>): (rows: seq<Attestation.Listed>)
    ensures |rows| == |page|
    ensures forall i :: 0 <= i < |page| ==>
              rows[i] == Attestation.Listed(page[i].command.id, page[i].command.order, Terminal(page[i].command.state))
  {
    seq(|page|, i requires 0 <= i < |page| =>
      Attestation.Listed(page[i].command.id, page[i].command.order, Terminal(page[i].command.state)))
  }

  // ------------------------------------------------------------------------
  // The inbox and the durable cursor, shared with the session's other Hosts
  // ------------------------------------------------------------------------

  /** The action is taken by this Host. */
  predicate ByHost(a: Attestation.Action, me: nat) {
    !a.Accept? && !a.Finish? && a.host == me
  }

  /** What this Host's own reads and writes were answered. */
  datatype Event =
    | CursorRead(base: nat) | CursorUnread
    | PageRead(page: seq<PageRecord>) | PageUnread
    | Saved(order: nat) | NotSaved

  class Ledger {
    var st: Attestation.State
    ghost var history: Attestation.History
    ghost var log: seq<Event>

    /** What everybody else does, and what the inbox answers, script by script. */
    var schedule: seq<seq<Attestation.Action>>
    var pages: seq<Option<seq<PageRecord>>>

    ghost predicate Valid()
      reads this
    {
      Attestation.Legal(history) && st == Attestation.Now(history)
    }

    constructor (script: seq<seq<Attestation.Action>>, pages: seq<Option<seq<PageRecord>>>)
      ensures Valid() && st == Attestation.Init()
    {
      st, history, log := Attestation.Init(), Attestation.History([], [Attestation.Init()]), [];
      schedule, this.pages := script, pages;
    }

    /** The Host is at this point of its pass. */
    ghost predicate At(me: nat, pass: Attestation.Pass)
      reads this
    {
      Valid() && me in st.hosts && st.hosts[me].pass == pass
    }

    /** Every command it counts as terminal is one of these. */
    ghost predicate Within(done: set<CommandId>)
      reads this
    {
      forall c :: c in st.commands && st.commands[c].terminal ==> c in done
    }

    lemma Invariant()
      requires Valid()
      ensures Attestation.Inv(st)
    {
      Attestation.ReachableInv(history, |history.actions|);
    }

    method Take(a: Attestation.Action)
      requires Valid() && Attestation.Enabled(st, a)
      modifies this`st, this`history
      ensures Valid() && st == Attestation.Apply(old(st), a)
    {
      st, history := Attestation.Apply(st, a), Attestation.Extended(history, a);
    }

    /** This Host stays as it is; the cursor never goes back; nothing is terminal that was not, but for `done`. */
    twostate predicate Others(me: nat, done: set<CommandId>)
      reads this
    {
      && Valid() && old(me in st.hosts) && me in st.hosts && st.hosts[me] == old(st.hosts[me])
      && old(st.cursor) <= st.cursor && Within(done)
    }

    /**
     Every other Host, Factory and the store run for as long as the script says; they settle only what is in the
     store.
     */
    method Interfere(me: nat, done: set<CommandId>)
      requires Valid() && me in st.hosts && me <= st.maxEpoch && Within(done)
      modifies this`st, this`history, this`schedule
      ensures Others(me, done) && me <= st.maxEpoch
    {
      if schedule == [] { return; }
      var script := schedule[0];
      schedule := schedule[1..];
      var i := 0;
      while i < |script|
        invariant Others(me, done) && me <= st.maxEpoch
        decreases |script| - i
      {
        var a := script[i];
        i := i + 1;
        if Attestation.Enabled(st, a) && !ByHost(a, me) && (a.Finish? ==> a.id in done) { Take(a); }
      }
    }

    /** The durable cursor, unless it cannot be read; a read may be stale. */
    method LoadCursor(me: nat, done: set<CommandId>) returns (base: Option<nat>)
      requires At(me, Attestation.NoPass) && me <= st.maxEpoch && Within(done)
      modifies this
      ensures Valid() && old(st.cursor) <= st.cursor && Within(done) && me <= st.maxEpoch
      ensures At(me, if base.Some? then Attestation.Loaded(base.value) else Attestation.NoPass)
      ensures st.hosts[me].(pass := Attestation.NoPass) == old(st.hosts[me])
      ensures base.Some? ==> base.value <= st.cursor
      ensures log == old(log) + [if base.Some? then CursorRead(base.value) else CursorUnread]
    {
      Interfere(me, done);
      if * {
        log := log + [CursorUnread];
        return None;
      }
      var stale: int := *;
      stale := if stale < 0 then 0 else stale;
      var read := if stale < st.cursor then stale else st.cursor;
      Take(Attestation.LoadCursor(me, read));
      log := log + [CursorRead(read)];
      base := Some(read);
    }

    /** A page; one that conforms is a true listing of what is accepted. */
    method ListOrdered(me: nat, done: set<CommandId>, scope: nat, base: nat, limit: nat)
        returns (page: Option<seq<PageRecord>>)
      requires At(me, Attestation.Loaded(base)) && me <= st.maxEpoch && Within(done)
      modifies this
      ensures Others(me, done) && me <= st.maxEpoch
      ensures page.Some? && Conforming(page.value, scope, base, limit) ==>
          Attestation.Listing(st, base, Rows(page.value))
      ensures log == old(log) + [if page.Some? then PageRead(page.value) else PageUnread]
    {
      Interfere(me, done);
      page := None;
      if pages != [] {
        page := pages[0];
        pages := pages[1..];
        if page.Some? && Conforming(page.value, scope, base, limit) &&
            !Attestation.Listing(st, base, Rows(page.value)) {
          page := None;
        }
      }
      log := log + [if page.Some? then PageRead(page.value) else PageUnread];
    }

    /** The fenced save, with everybody else running between the fence's check and the write. */
    method SaveCursor(me: nat, done: set<CommandId>, consumed: nat) returns (ok: bool)
      requires At(me, Attestation.Armed(consumed)) && me <= st.maxEpoch && Within(done)
      modifies this
      ensures At(me, Attestation.NoPass) && me <= st.maxEpoch && Within(done) && old(st.cursor) <= st.cursor
      ensures st.hosts[me].(pass := Attestation.Armed(consumed)) == old(st.hosts[me])
      ensures ok ==> st.cursor == consumed
      ensures log == old(log) + [if ok then Saved(consumed) else NotSaved]
    {
      Interfere(me, done);
      ok := false;
      var reached := *;
      if reached && Attestation.Enabled(st, Attestation.SaveCursor(me)) {
        Take(Attestation.SaveCursor(me));
        ok := *; // the acknowledgement may be lost
      } else {
        Take(Attestation.EndPass(me));
      }
      log := log + [if ok then Saved(consumed) else NotSaved];
    }
  }

  // ------------------------------------------------------------------------
  // One pass
  // ------------------------------------------------------------------------

  datatype PassError = CursorUnreadable | CursorRegression | InboxUnreadable | BadPage | Cancelled | GrantLost |
      CursorRefused

  datatype PassResult = PassResult(
    cursor: nat, examined: nat, consumed: nat, more: bool, blocked: Option<Command>, err: Option<PassError>)

  /**
   What each error of a pass is owed to: a read or a write that was answered so since the pass began, a page that does
   not conform, a cursor read below the one held, a cancellation, or a lost grant.
   */
  ghost predicate Because(err: PassError, log: seq<Event>, since: nat, held: Option<nat>, at: nat, scope: nat,
      limit: nat, lost: bool, cancelled: bool)
  {
    match err
    case CursorUnreadable => exists k :: since <= k < |log| && log[k].CursorUnread?
    case CursorRegression =>
      held.Some? && exists k :: since <= k < |log| && log[k].CursorRead? && log[k].base < held.value
    case InboxUnreadable => exists k :: since <= k < |log| && log[k].PageUnread?
    case BadPage =>
      exists k :: since <= k < |log| && log[k].PageRead? && !Conforming(log[k].page, scope, at, limit)
    case Cancelled => cancelled
    case GrantLost => lost
    case CursorRefused => lost || exists k :: since <= k < |log| && log[k].NotSaved?
  }

  /** What became of one record: passed, perhaps on an owned prefix alone; blocking; or not reached. */
  datatype Row = Passed(swallowed: bool) | Blocked | Stopped(err: PassError)

  class Consumer {
    const me: nat // this Host's residency epoch
    const station: Station
    const ledger: Ledger
    const fence: Fence
    const scope: nat
    const limit: nat

    var cursor: nat
    var loaded: bool
    var halted: bool

    /** Every command handed to the Processor, in order, and how many cursor writes this Host sent. */
    ghost var handed: seq<Command>
    ghost var saves: nat

    constructor (me: nat, station: Station, ledger: Ledger, fence: Fence, scope: nat, limit: nat)
      requires limit > 0
      ensures this.me == me && this.station == station && this.ledger == ledger && this.fence == fence
      ensures this.scope == scope && this.limit == limit
      ensures cursor == 0 && !loaded && !halted && handed == [] && saves == 0
    {
      this.me, this.station, this.ledger, this.fence, this.scope, this.limit := me, station, ledger, fence, scope,
          limit;
      cursor, loaded, halted, handed, saves := 0, false, false, [], 0;
    }

    /** The ledger's view of this Host: where its pass is, and no more lost than its fence. */
    ghost predicate Mid(pass: Attestation.Pass)
      reads ledger, fence
    {
      && ledger.At(me, pass) && me <= ledger.st.maxEpoch
      && ledger.st.hosts[me].processing == station.Kind()
      && (ledger.st.hosts[me].lost ==> fence.lost)
    }

    /** The Processor is ready, and whatever the ledger counts as terminal is terminal in the Processor's store. */
    ghost predicate Coupled()
      reads ledger, station.repr
    {
      station.Standing().Fit? && ledger.Within(station.Standing().done)
    }

    /** The Processor is this Host's, behind the same fence, and shares nothing else with the pass. */
    ghost predicate Apart() {
      && station.me == me && station.fence == fence
      && ledger !in station.repr && fence !in station.repr && this !in station.repr
    }

    /** The held cursor is never ahead of the durable one. */
    ghost predicate Held()
      reads this`cursor, this`loaded, ledger
    {
      limit > 0 && (!loaded ==> cursor == 0) && cursor <= ledger.st.cursor
    }

    ghost predicate Ready()
      reads this`cursor, this`loaded, ledger, fence, station.repr
    {
      Apart() && Mid(Attestation.NoPass) && Coupled() && Held()
    }

    /** Every command at or below the durable cursor is terminal in the Processor's store, whoever wrote the cursor. */
    lemma CursorAttests(c: CommandId)
      requires ledger.Valid() && Coupled() && c in ledger.st.commands
      requires ledger.st.commands[c].order <= ledger.st.cursor
      ensures c in station.Done()
    {
      ledger.Invariant();
    }

    /** What every step of a pass keeps, apart from the Processor: where the pass is, and what the ledger counts on. */
    ghost predicate Passing(pass: Attestation.Pass, done: set<CommandId>)
      reads this`cursor, this`loaded, ledger, fence
    {
      Mid(pass) && Held() && ledger.Within(done)
    }

    /** Leaves the pass wherever it is. */
    method EndPass(ghost pass: Attestation.Pass, ghost done: set<CommandId>)
      requires Passing(pass, done)
      modifies ledger`st, ledger`history
      ensures Passing(Attestation.NoPass, done)
    {
      ledger.Take(Attestation.EndPass(me));
    }

    /** Reads the durable cursor and refuses one that went backwards. */
    method LoadCursor(done: set<CommandId>) returns (base: Option<nat>, err: Option<PassError>)
      requires Passing(Attestation.NoPass, done)
      modifies this`cursor, this`loaded, ledger
      ensures old(cursor) <= cursor && (base.Some? <==> err.None?)
      ensures Passing(if base.Some? then Attestation.Loaded(base.value) else Attestation.NoPass, done)
      ensures base.Some? ==> base.value == cursor && loaded
      ensures |ledger.log| == |old(ledger.log)| + 1 && old(ledger.log) <= ledger.log
      ensures base.Some? ==> Last(ledger.log) == CursorRead(cursor)
      ensures err.Some? ==> cursor == old(cursor) && (err.value.CursorUnreadable? || err.value.CursorRegression?)
      ensures err == Some(CursorUnreadable) ==> Last(ledger.log).CursorUnread?
      ensures err == Some(CursorRegression) ==>
                old(loaded) && Last(ledger.log).CursorRead? && Last(ledger.log).base < cursor
    {
      base := ledger.LoadCursor(me, done);
      if base.None? { return None, Some(CursorUnreadable); }
      if loaded && base.value < cursor {
        EndPass(Attestation.Loaded(base.value), done);
        return None, Some(CursorRegression);
      }
      cursor, loaded := base.value, true;
      err := None;
    }

    /** The page after the cursor, once it conforms; the pass is then at its first record. */
    method ReadPage(done: set<CommandId>) returns (page: Option<seq<PageRecord>>, err: Option<PassError>)
      requires Passing(Attestation.Loaded(cursor), done)
      modifies ledger
      ensures page.Some? <==> err.None?
      ensures page.None? ==> Passing(Attestation.NoPass, done)
      ensures page.Some? ==> Conforming(page.value, scope, cursor, limit)
      ensures page.Some? ==> Passing(Attestation.Scanning(cursor, Rows(page.value), 0, false, false), done)
      ensures |ledger.log| == |old(ledger.log)| + 1 && old(ledger.log) <= ledger.log
      ensures page.Some? ==> Last(ledger.log) == PageRead(page.value)
      ensures err.Some? ==> err.value.InboxUnreadable? || err.value.BadPage?
      ensures err == Some(InboxUnreadable) ==> Last(ledger.log).PageUnread?
      ensures err == Some(BadPage) ==>
                Last(ledger.log).PageRead? && !Conforming(Last(ledger.log).page, scope, cursor, limit)
    {
      page := ledger.ListOrdered(me, done, scope, cursor, limit);
      if page.None? {
        EndPass(Attestation.Loaded(cursor), done);
        return None, Some(InboxUnreadable);
      }
      var problem, _ := ValidatePage(page.value, scope, cursor, limit);
      if problem.Some? {
        EndPass(Attestation.Loaded(cursor), done);
        return None, Some(BadPage);
      }
      ledger.Take(Attestation.List(me, Rows(page.value)));
      err := None;
    }

    /** The cursor rule for one record: it is passed when it is terminal, or its Processor's answer says it may be. */
    method ConsumeRecord(page: seq<PageRecord>, i: nat, swallowed: bool, inputs: Inputs, cancelled: bool)
      returns (row: Row)
      requires i < |page| && inputs.disposition.readers.residency == me
      requires Apart() && At(page, i, swallowed, false) && Coupled()
      modifies this`handed, ledger`st, ledger`history, ledger`schedule, fence, station`answered, station.repr
      ensures Coupled()
      ensures row.Stopped? ==> At(page, i, swallowed, false) && handed == old(handed)
      ensures row.Stopped? ==> (row.err.Cancelled? && cancelled) || (row.err.GrantLost? && fence.lost)
      // It blocks only on what the Processor answered for it.
      ensures row.Blocked? ==> Balked(page[i].command)
      ensures row.Passed? ==> Terminal(page[i].command.state) || Accepted(page[i].command)
      ensures row.Passed? ==> At(page, i + 1, row.swallowed, false)
      ensures row.Blocked? ==> At(page, i, swallowed, true)
      ensures !row.Stopped? ==> handed == old(handed) + Adds(page[i])
    {
      if Terminal(page[i].command.state) {
        ledger.Take(Attestation.SkipTerminal(me));
        row := Passed(swallowed);
      } else {
        if cancelled { return Stopped(Cancelled); }
        var held := fence.Held();
        if !held { return Stopped(GrantLost); }
        var reply := Hand(page, i, swallowed, inputs);
        row := if Attestation.Consumes(reply) then Passed(swallowed || !Terminal(reply.state)) else Blocked;
      }
    }

    /** The Processor was last called for this command, and refused, or owns nothing terminal or durable of it. */
    ghost predicate Balked(command: Command)
      reads station`answered
    {
      && station.answered != [] && Last(station.answered).0 == command
      && var reply := Last(station.answered).1;
         reply.refused || (!Terminal(reply.state) && !reply.prefixOwned)
    }

    /** It was, and its answer is silent about a terminal command or an owned prefix. */
    ghost predicate Accepted(command: Command)
      reads station`answered
    {
      && station.answered != [] && Last(station.answered).0 == command
      && var reply := Last(station.answered).1;
         !reply.refused && (Terminal(reply.state) || reply.prefixOwned)
    }

    /** The pass is at the page's i-th record. */
    ghost predicate At(page: seq<PageRecord>, i: nat, swallowed: bool, blocked: bool)
      reads this`cursor, this`loaded, ledger, fence
    {
      Mid(Attestation.Scanning(cursor, Rows(page), i, swallowed, blocked)) && Held()
    }

    /** Hands one command to the Processor, with everybody else running meanwhile, and lets its answer move the pass. */
    method Hand(page: seq<PageRecord>, i: nat, swallowed: bool, inputs: Inputs) returns (reply: Attestation.Reply)
      requires i < |page| && !Terminal(page[i].command.state) && inputs.disposition.readers.residency == me
      requires Apart() && At(page, i, swallowed, false) && Coupled()
      modifies this`handed, ledger`st, ledger`history, ledger`schedule, fence, station`answered, station.repr
      ensures Coupled() && handed == old(handed) + [page[i].command]
      ensures station.answered == old(station.answered) + [(page[i].command, reply)]
      ensures Attestation.Consumes(reply) ==> At(page, i + 1, swallowed || !Terminal(reply.state), false)
      ensures !Attestation.Consumes(reply) ==> At(page, i, swallowed, true)
      ensures old(fence.lost) ==> fence.lost
    {
      handed := handed + [page[i].command];
      reply := station.Process(page[i].command, inputs);
      ghost var standing := station.Standing();
      Record(page, i, swallowed, reply, station.Done());
      assert station.Standing() == standing;
    }

    /**
     Records a Processor's answer in the ledger: what it settled, whether the grant is gone, and the answer itself.
     */
    method Record(page: seq<PageRecord>, i: nat, swallowed: bool, reply: Attestation.Reply, done: set<CommandId>)
      requires i < |page| && !Terminal(page[i].command.state)
      requires At(page, i, swallowed, false) && ledger.Within(done)
      requires Attestation.Promised(station.Kind(), reply, page[i].command.id in done, fence.lost)
      modifies ledger`st, ledger`history, ledger`schedule
      ensures ledger.Within(done)
      ensures Attestation.Consumes(reply) ==> At(page, i + 1, swallowed || !Terminal(reply.state), false)
      ensures !Attestation.Consumes(reply) ==> At(page, i, swallowed, true)
    {
      ledger.Interfere(me, done);
      ledger.Invariant();
      assert Attestation.PassOk(ledger.st, ledger.st.hosts[me]);
      assert Attestation.RowTrue(ledger.st, Rows(page)[i]);
      if fence.lost { ledger.Take(Attestation.LoseGrant(me)); }
      if page[i].command.id in done { ledger.Take(Attestation.Finish(page[i].command.id)); }
      ledger.Take(Attestation.Processed(me, reply));
    }

    /** The pass is between two of the page's records, or stuck at one, having handed over what it should have. */
    ghost predicate Underway(page: seq<PageRecord>, i: nat, swallowed: bool, blocked: bool, was: seq<Command>)
      reads this`cursor, this`loaded, this`handed, ledger, fence, station.repr
    {
      && i <= |page| && (blocked ==> i < |page|)
      && Coupled() && At(page, i, swallowed, blocked)
      && HandedTo(was, handed, page, Stuck(page, i, blocked), if blocked then i + 1 else i)
    }

    /** The same, as one more of the page's records. */
    method ConsumeNext(page: seq<PageRecord>, i: nat, swallowed: bool, inputs: Inputs, cancelled: bool,
        ghost was: seq<Command>)
      returns (row: Row)
      requires i < |page| && inputs.disposition.readers.residency == me
      requires Apart() && Underway(page, i, swallowed, false, was)
      modifies this`handed, ledger`st, ledger`history, ledger`schedule, fence, station`answered, station.repr
      ensures row.Stopped? ==> Underway(page, i, swallowed, false, was)
      ensures row.Stopped? ==> (row.err.Cancelled? && cancelled) || (row.err.GrantLost? && fence.lost)
      ensures row.Blocked? ==> Underway(page, i, swallowed, true, was) && Balked(page[i].command)
      ensures row.Passed? ==> Underway(page, i + 1, row.swallowed, false, was)
    {
      HandedNext(was, handed, page, i);
      row := ConsumeRecord(page, i, swallowed, inputs, cancelled);
    }

    /** Hands the page's records over one by one, up to the first that does not settle. */
    method ConsumeRecords(page: seq<PageRecord>, inputs: nat -> Inputs, cancelledAt: nat -> bool)
      returns (count: nat, swallowed: bool, blocked: bool, err: Option<PassError>)
      requires Apart() && At(page, 0, false, false) && Coupled()
      requires forall i :: inputs(i).disposition.readers.residency == me
      modifies this`handed, ledger`st, ledger`history, ledger`schedule, fence, station`answered, station.repr
      ensures Underway(page, count, swallowed, blocked, old(handed))
      ensures err.None? && !blocked ==> count == |page|
      ensures blocked ==> count < |page| && Balked(page[count].command)
      ensures err.Some? ==> !blocked
      ensures err.Some? ==> (err.value.Cancelled? && cancelledAt(count)) || (err.value.GrantLost? && fence.lost)
    {
      count, swallowed, blocked, err := 0, false, false, None;
      while count < |page|
        invariant count <= |page| && Underway(page, count, swallowed, false, old(handed))
      {
        var row := ConsumeNext(page, count, swallowed, inputs(count), cancelledAt(count), old(handed));
        if row.Stopped? { return count, swallowed, false, Some(row.err); }
        if row.Blocked? { return count, swallowed, true, None; }
        count, swallowed := count + 1, row.swallowed;
      }
    }

    /** The record a pass stopped at. */
    static function Stuck(page: seq<PageRecord>, count: nat, blocked: bool): Option<Command>
      requires blocked ==> count < |page|
    {
      if blocked then Some(page[count].command) else None
    }

    /** The grant is gone, or the save was refused or not answered. */
    ghost predicate Unsaved(since: nat)
      reads fence, ledger`log
    {
      fence.lost || (since < |ledger.log| && Last(ledger.log).NotSaved?)
    }

    /** Ends the pass with one fenced save, if it moved on; nothing is saved over a swallowed completion. */
    method Conclude(page: seq<PageRecord>, count: nat, swallowed: bool, blocked: bool, done: set<CommandId>)
      returns (err: Option<PassError>)
      requires count <= |page| && Ordered(page, cursor) && loaded
      requires Passing(Attestation.Scanning(cursor, Rows(page), count, swallowed, blocked), done)
      modifies this`cursor, this`saves, ledger, fence
      ensures Passing(Attestation.NoPass, done) && old(cursor) <= cursor
      ensures err.None? ==> cursor == Through(page, old(cursor), count)
      ensures err.Some? ==> err.value.CursorRefused? && cursor == old(cursor)
      ensures old(ledger.log) <= ledger.log
      ensures err.Some? ==> Unsaved(|old(ledger.log)|)
      ensures saves <= old(saves) + 1 && (swallowed ==> saves == old(saves))
      ensures old(fence.lost) ==> fence.lost
    {
      var consumed := Through(page, cursor, count);
      ghost var pass := Attestation.Scanning(cursor, Rows(page), count, swallowed, blocked);
      if consumed <= cursor {
        EndPass(pass, done);
        return None;
      }
      ledger.Invariant();
      assert Attestation.PassOk(ledger.st, ledger.st.hosts[me]);
      var held := fence.Held();
      if !held {
        EndPass(pass, done);
        return Some(CursorRefused);
      }
      ledger.Take(Attestation.CheckFence(me));
      err := Save(consumed, done);
    }

    /** The held cursor moves only when the store acknowledged the save. */
    method Save(consumed: nat, done: set<CommandId>) returns (err: Option<PassError>)
      requires Passing(Attestation.Armed(consumed), done) && loaded && cursor <= consumed
      modifies this`cursor, this`saves, ledger
      ensures Passing(Attestation.NoPass, done) && saves == old(saves) + 1
      ensures cursor == if err.None? then consumed else old(cursor)
      ensures ledger.log == old(ledger.log) + [if err.None? then Saved(consumed) else NotSaved]
      ensures err.Some? ==> err.value.CursorRefused?
    {
      saves := saves + 1;
      var ok := ledger.SaveCursor(me, done, consumed);
      if !ok { return Some(CursorRefused); }
      cursor := consumed;
      err := None;
    }

    /** The page is one the inbox answered since. */
    ghost predicate Lists(page: seq<PageRecord>, since: nat)
      reads ledger`log
    {
      exists k :: since <= k < |ledger.log| && ledger.log[k] == PageRead(page)
    }

    /** How far a pass got through its page, and what it says of that. */
    ghost predicate Reached(result: PassResult, page: seq<PageRecord>, start: nat, reach: nat)
      reads this`cursor, station`answered
    {
      && result.cursor == cursor && result.examined == |page| && result.consumed <= |page|
      && reach == result.consumed + (if result.blocked.Some? then 1 else 0)
      // Without an error it got to the page's end or to the command its Processor would not let it pass.
      && (result.err.None? ==> cursor == Through(page, start, result.consumed))
      && (result.err.None? && result.blocked.None? ==> result.consumed == |page|)
      && (result.blocked.Some? ==> Balked(result.blocked.value))
      && (result.more <==> result.err.None? && result.blocked.None? && |page| == limit)
    }

    /** A pass that ended, with its Processor as it was. */
    lemma Rested(done: set<CommandId>)
      requires Apart() && Passing(Attestation.NoPass, done) && station.Standing() == Fit(done)
      ensures Ready()
    {
    }

    /** One pass over a conforming page: the loop, and the one cursor write after it. */
    method ConsumePage(page: seq<PageRecord>, inputs: nat -> Inputs, cancelledAt: nat -> bool)
      returns (result: PassResult, ghost swallowed: bool, ghost reach: nat)
      requires Apart() && At(page, 0, false, false) && Coupled() && loaded
      requires Conforming(page, scope, cursor, limit) && forall i :: inputs(i).disposition.readers.residency == me
      modifies this`cursor, this`handed, this`saves, ledger, fence, station`answered, station.repr
      ensures Ready() && old(cursor) <= cursor && old(ledger.log) <= ledger.log
      ensures HandedTo(old(handed), handed, page, result.blocked, reach)
      ensures Reached(result, page, old(cursor), reach)
      ensures result.err.Some? ==>
                || (result.err.value.Cancelled? && cancelledAt(result.consumed))
                || (result.err.value.GrantLost? && fence.lost)
                || (result.err.value.CursorRefused? && Unsaved(|old(ledger.log)|))
      ensures saves <= old(saves) + 1 && (swallowed ==> saves == old(saves))
      ensures result.err.Some? && !result.err.value.CursorRefused? ==> saves == old(saves)
      ensures result.more ==> old(cursor) + limit <= cursor
    {
      var count, sw, stuck, err := ConsumeRecords(page, inputs, cancelledAt);
      swallowed, reach := sw, if stuck then count + 1 else count;
      ghost var standing := station.Standing();
      result := Finish(page, count, sw, stuck, err, station.Done());
      assert station.Standing() == standing;
      Rested(standing.done);
    }

    /** The result of a pass that got so far through its page. */
    method Finish(page: seq<PageRecord>, count: nat, swallowed: bool, stuck: bool, why: Option<PassError>,
        done: set<CommandId>)
      returns (result: PassResult)
      requires count <= |page| && Conforming(page, scope, cursor, limit) && loaded && (stuck ==> count < |page|)
      requires Passing(Attestation.Scanning(cursor, Rows(page), count, swallowed, stuck), done)
      requires why.None? && !stuck ==> count == |page|
      requires why.Some? ==> !stuck && (why.value.Cancelled? || why.value.GrantLost?)
      modifies this`cursor, this`saves, ledger, fence
      ensures Passing(Attestation.NoPass, done) && old(cursor) <= cursor && old(ledger.log) <= ledger.log
      ensures result.cursor == cursor && result.examined == |page| && result.consumed == count
      ensures result.blocked == Stuck(page, count, stuck)
      ensures result.err.None? ==> why.None? && cursor == Through(page, old(cursor), count)
      ensures result.err.Some? ==>
                result.err == why || (why.None? && result.err.value.CursorRefused? && Unsaved(|old(ledger.log)|))
      ensures old(fence.lost) ==> fence.lost
      ensures saves <= old(saves) + 1 && (swallowed ==> saves == old(saves))
      ensures why.Some? ==> saves == old(saves)
      ensures result.more <==> result.err.None? && !stuck && |page| == limit
      ensures result.more ==> old(cursor) + limit <= cursor
    {
      if why.Some? {
        EndPass(Attestation.Scanning(cursor, Rows(page), count, swallowed, stuck), done);
        return PassResult(cursor, |page|, count, false, None, why);
      }
      if page != [] { FullPageAdvances(page, cursor); }
      var err := Conclude(page, count, swallowed, stuck, done);
      var more := err.None? && !stuck && |page| == limit;
      result := PassResult(cursor, |page|, count, more, Stuck(page, count, stuck), err);
    }

    /** One pass: refused before the read under a lost grant, so that nothing of the session's inbox is read. */
    method Reconcile(inputs: nat -> Inputs, cancelledAt: nat -> bool)
      returns (result: PassResult, ghost page: seq<PageRecord>, ghost start: nat, ghost reach: nat,
        ghost swallowed: bool)
      requires Ready() && forall i :: inputs(i).disposition.readers.residency == me
      modifies this`cursor, this`loaded, this`handed, this`saves, ledger, fence, station`answered, station.repr
      ensures Ready()
      // The held cursor never decreases.
      ensures old(cursor) <= cursor && result.cursor == cursor && old(ledger.log) <= ledger.log
      // What was handed to the Processor is the unfinished part of a prefix of one conforming page, ending with the
      // record the pass stopped at: the whole page, unless an error or the Processor's answer says otherwise.
      ensures old(cursor) <= start && Conforming(page, scope, start, limit)
      ensures HandedTo(old(handed), handed, page, result.blocked, reach)
      ensures halted ==> handed == old(handed) && result.err.None? && !result.more
      ensures !halted && result.err.None? ==>
                Reached(result, page, start, reach) && Lists(page, |old(ledger.log)|)
      ensures result.err.Some? ==>
                Because(result.err.value, ledger.log, |old(ledger.log)|,
                  if old(loaded) then Some(old(cursor)) else None, start, scope, limit, fence.lost,
                  cancelledAt(result.consumed))
      // A cursor is written at most once, not at all by a pass that was aborted, nor over a swallowed completion.
      ensures saves <= old(saves) + 1 && (swallowed ==> saves == old(saves))
      ensures result.err.Some? && !result.err.value.CursorRefused? ==> saves == old(saves)
      // More is reported only for a full page consumed whole, which advances the cursor by the batch.
      ensures result.more ==> result.err.None? && result.blocked.None? && old(cursor) + limit <= cursor
    {
      page, swallowed, start, reach := [], false, cursor, 0;
      if halted { return PassResult(cursor, 0, 0, false, None, None), page, start, reach, swallowed; }
      var held := fence.Held();
      if !held { return PassResult(cursor, 0, 0, false, None, Some(GrantLost)), page, start, reach, swallowed; }
      result, page, start, reach, swallowed := Advance(inputs, cancelledAt);
    }

    /** A pass whose grant held: the cursor, the page after it, and the page's commands. */
    method Advance(inputs: nat -> Inputs, cancelledAt: nat -> bool)
      returns (result: PassResult, ghost page: seq<PageRecord>, ghost start: nat, ghost reach: nat,
        ghost swallowed: bool)
      requires Ready() && forall i :: inputs(i).disposition.readers.residency == me
      modifies this`cursor, this`loaded, this`handed, this`saves, ledger, fence, station`answered, station.repr
      ensures Ready() && old(cursor) <= cursor && result.cursor == cursor && old(ledger.log) <= ledger.log
      ensures old(cursor) <= start && Conforming(page, scope, start, limit)
      ensures HandedTo(old(handed), handed, page, result.blocked, reach)
      ensures result.err.None? ==> Reached(result, page, start, reach) && Lists(page, |old(ledger.log)|)
      ensures result.err.Some? ==>
                Because(result.err.value, ledger.log, |old(ledger.log)|,
                  if old(loaded) then Some(old(cursor)) else None, start, scope, limit, fence.lost,
                  cancelledAt(result.consumed))
      ensures saves <= old(saves) + 1 && (swallowed ==> saves == old(saves))
      ensures result.err.Some? && !result.err.value.CursorRefused? ==> saves == old(saves)
      ensures result.more ==> result.err.None? && result.blocked.None? && old(cursor) + limit <= cursor
    {
      page, swallowed, reach := [], false, 0;
      var listed, err := Open();
      start := cursor;
      if listed.None? { return PassResult(cursor, 0, 0, false, None, err), page, start, reach, swallowed; }
      page := listed.value;
      result, swallowed, reach := ConsumePage(listed.value, inputs, cancelledAt);
      assert ledger.log != [] ==> Last(ledger.log) == ledger.log[|ledger.log| - 1];
    }

    /** The cursor, and the conforming page after it. */
    method Open() returns (page: Option<seq<PageRecord>>, err: Option<PassError>)
      requires Ready()
      modifies this`cursor, this`loaded, ledger
      ensures Coupled() && old(cursor) <= cursor && (page.Some? <==> err.None?) && old(ledger.log) <= ledger.log
      ensures page.None? ==> Ready() && !err.value.CursorRefused?
      ensures err.Some? ==>
                Because(err.value, ledger.log, |old(ledger.log)|, if old(loaded) then Some(old(cursor))
                    else None, cursor,
                  scope, limit, fence.lost, false)
      ensures page.Some? ==> At(page.value, 0, false, false) && loaded && Conforming(page.value, scope, cursor, limit)
      ensures page.Some? ==> Lists(page.value, |old(ledger.log)|)
    {
      var base;
      base, err := LoadCursor(station.Done());
      assert Last(ledger.log) == ledger.log[|ledger.log| - 1];
      if base.None? { return None, err; }
      page, err := ReadPage(station.Done());
      assert Last(ledger.log) == ledger.log[|ledger.log| - 1];
    }

    /** A pass after which there is no more to do at once: halted, short of a full page, balked at, or failed. */
    ghost predicate Over(since: nat, cancelledAt: (nat, nat) -> bool)
      reads this`halted, ledger`log, fence, station`answered
    {
      || halted
      || (exists page :: |page| < limit && Lists(page, since))
      || (exists command :: Balked(command))
      || (exists err, held, at, n, i :: Because(err, ledger.log, since, held, at, scope, limit, fence.lost,
                                          cancelledAt(n, i)))
    }

    lemma Ended(result: PassResult, page: seq<PageRecord>, start: nat, reach: nat, since: nat, from: nat,
        held: Option<nat>, n: nat, cancelledAt: (nat, nat) -> bool)
      requires since <= from && !result.more && |page| <= limit
      requires !halted && result.err.None? ==> Reached(result, page, start, reach) && Lists(page, from)
      requires result.err.Some? ==>
                 Because(result.err.value, ledger.log, from, held, start, scope, limit, fence.lost,
                   cancelledAt(n, result.consumed))
      ensures Over(since, cancelledAt)
    {
      if result.err.Some? {
        var err := result.err.value;
        assert Because(err, ledger.log, since, held, start, scope, limit, fence.lost, cancelledAt(n, result.consumed));
      } else if !halted && result.blocked.None? {
        var k :| from <= k < |ledger.log| && ledger.log[k] == PageRead(page);
        assert Lists(page, since);
      }
    }

    /**
     The immediate continuation of Run: passes for as long as each reports more.  Every such pass moves the cursor on by
     a whole batch, towards the last order accepted, so they cannot go on without new commands being accepted.
     */
    method Continue(bound: nat, inputs: (nat, nat) -> Inputs, cancelledAt: (nat, nat) -> bool) returns (continued: nat)
      requires Ready() && forall n, i :: inputs(n, i).disposition.readers.residency == me
      modifies this`cursor, this`loaded, this`handed, this`saves, ledger, fence, station`answered, station.repr
      ensures Ready() && old(cursor) + continued * limit <= cursor <= ledger.st.maxOrder
      // It stops at the bound, or at the first pass after which there is no more to do at once.
      ensures continued <= bound && (continued < bound ==> Over(|old(ledger.log)|, cancelledAt))
    {
      continued := 0;
      var more := true;
      while more && continued < bound
        invariant Ready() && old(cursor) + continued * limit <= cursor && continued <= bound
        invariant old(ledger.log) <= ledger.log && (!more ==> Over(|old(ledger.log)|, cancelledAt))
        decreases bound - continued, more
      {
        var n := continued;
        ghost var before, was := ledger.log, if loaded then Some(cursor) else None;
        var result, page, start, reach, _ := Reconcile((i: nat) => inputs(n, i), (i: nat) => cancelledAt(n, i));
        if !result.more { Ended(result, page, start, reach, |old(ledger.log)|, |before|, was, n, cancelledAt); }
        more := result.more;
        if more {
          continued := continued + 1;
          assert continued * limit == n * limit + limit;
        }
      }
      ledger.Invariant();
    }
  }
}
