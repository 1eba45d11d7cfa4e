/**
 What the durable cursor attests, over every interleaving of any number of Hosts'
 passes, each with either applier as Processor.

 A command is reduced to its acceptance order and whether it is terminal; a Host
 to its fence and its pass.  What a Processor may answer is what its own contract
 promises, and what a pass makes of the answer is the consumer's rule.
 */
module Attestation {
  import opened Base

  datatype Command = Command(order: nat, terminal: bool)

  /** A page's record: the command, and whether the page already reported it terminal. */
  datatype Listed = Listed(id: CommandId, order: nat, terminal: bool)

  // ------------------------------------------------------------------------
  // Processors
  // ------------------------------------------------------------------------

  datatype Processing = ByDisposition | ByLegacy

  /** A Processor's answer: the state it saw, whether the command's prefix is durably owned, and whether it refused. */
  datatype Reply = Reply(state: CommandState, prefixOwned: bool, refused: bool)

  /** The disposition applier is silent only about a command that is terminal in the store. */
  predicate DispositionPromise(r: Reply, stored: bool) { !r.refused ==> Terminal(r.state) && stored }

  /** The legacy applier may also be silent about a completion it could not record because its grant is gone. */
  predicate LegacyPromise(r: Reply, stored: bool, lost: bool) {
    !r.refused ==> (Terminal(r.state) && stored) || (!Terminal(r.state) && r.prefixOwned && lost)
  }

  predicate Promised(p: Processing, r: Reply, stored: bool, lost: bool) {
    match p
    case ByDisposition => DispositionPromise(r, stored)
    case ByLegacy => LegacyPromise(r, stored, lost)
  }

  /** The consumer's rule: a silent answer is consumed if it is terminal or its prefix is owned. */
  predicate Consumes(r: Reply) { !r.refused && (Terminal(r.state) || r.prefixOwned) }

  // ------------------------------------------------------------------------
  // The system
  // ------------------------------------------------------------------------

  datatype Pass =
    | NoPass
    | Loaded(base: nat)
    | Scanning(base: nat, page: seq<Listed>, next: nat, swallowed: bool, blocked: bool)
    | Armed(consumed: nat) // past the fence's check, about to write

  datatype Host = Host(lost: bool, processing: Processing, pass: Pass)

  datatype State = State(
    commands: map<CommandId, Command>, maxOrder: nat, cursor: nat, cursorEpoch: nat,
    hosts: map<nat, Host>, maxEpoch: nat)

  function Init(): State { State(map[], 0, 0, 0, map[], 0) }

  datatype Action =
    | Accept(id: CommandId)
    | Finish(id: CommandId)
    | Attach(host: nat, processing: Processing)
    | Crash(host: nat)
    | LoseGrant(host: nat)
    | LoadCursor(host: nat, base: nat)
    | List(host: nat, page: seq<Listed>)
    | SkipTerminal(host: nat)
    | Processed(host: nat, reply: Reply)
    | CheckFence(host: nat)
    | SaveCursor(host: nat)
    | EndPass(host: nat)

  predicate Ascending(page: seq<Listed>, base: nat) {
    && (forall i :: 0 <= i < |page| ==> base < page[i].order)
    && (forall i, j :: 0 <= i < j < |page| ==> page[i].order < page[j].order)
  }

  /** The listing contract: true rows, and none missing up to the last one. */
  predicate Listing(s: State, base: nat, page: seq<Listed>) {
    && (forall i :: 0 <= i < |page| ==> RowTrue(s, page[i]))
    && (page != [] ==> forall c {:trigger Lists(page, c)} ::
          c in s.commands && base < s.commands[c].order <= Last(page).order ==> Lists(page, c))
  }

  predicate Lists(page: seq<Listed>, c: CommandId) { exists i :: 0 <= i < |page| && page[i].id == c }

  predicate RowTrue(s: State, row: Listed) {
    && row.id in s.commands && s.commands[row.id].order == row.order <= s.maxOrder
    && (row.terminal ==> s.commands[row.id].terminal)
  }

  function Consumed(p: Pass): nat
    requires p.Scanning? && p.next <= |p.page|
  {
    if p.next == 0 then p.base else p.page[p.next - 1].order
  }

  predicate AtRow(s: State, host: nat) {
    host in s.hosts && s.hosts[host].pass.Scanning? && !s.hosts[host].pass.blocked &&
    s.hosts[host].pass.next < |s.hosts[host].pass.page|
  }

  function Row(s: State, host: nat): Listed
    requires AtRow(s, host)
  {
    s.hosts[host].pass.page[s.hosts[host].pass.next]
  }

  predicate Enabled(s: State, a: Action) {
    match a
    case Accept(id) => id !in s.commands
    case Finish(id) => id in s.commands
    case Attach(host, _) => s.maxEpoch < host
    case Crash(host) => host in s.hosts
    case LoseGrant(host) => host in s.hosts
    // a read may be stale
    case LoadCursor(host, base) => host in s.hosts && s.hosts[host].pass.NoPass? && base <= s.cursor
    case List(host, page) =>
      host in s.hosts && s.hosts[host].pass.Loaded? &&
      Ascending(page, s.hosts[host].pass.base) && Listing(s, s.hosts[host].pass.base, page)
    case SkipTerminal(host) => AtRow(s, host) && Row(s, host).terminal
    case Processed(host, reply) =>
      AtRow(s, host) && !Row(s, host).terminal && Row(s, host).id in s.commands &&
      Promised(s.hosts[host].processing, reply, s.commands[Row(s, host).id].terminal, s.hosts[host].lost)
    case CheckFence(host) =>
      host in s.hosts && s.hosts[host].pass.Scanning? && !s.hosts[host].lost &&
      s.hosts[host].pass.next <= |s.hosts[host].pass.page|
    case SaveCursor(host) =>
      host in s.hosts && s.hosts[host].pass.Armed? && s.cursorEpoch <= host && s.cursor <= s.hosts[host].pass.consumed
    case EndPass(host) => host in s.hosts
  }

  function WithPass(s: State, host: nat, p: Pass): State
    requires host in s.hosts
  {
    s.(hosts := s.hosts[host := s.hosts[host].(pass := p)])
  }

  /** A consumed answer moves the pass on; any other stops it there. */
  function AfterReply(p: Pass, r: Reply): Pass
    requires p.Scanning?
  {
    if Consumes(r) then p.(next := p.next + 1, swallowed := p.swallowed || !Terminal(r.state)) else p.(blocked := true)
  }

  function Apply(s: State, a: Action): State
    requires Enabled(s, a)
  {
    match a
    case Accept(id) => s.(commands := s.commands[id := Command(s.maxOrder + 1, false)], maxOrder := s.maxOrder + 1)
    case Finish(id) => s.(commands := s.commands[id := s.commands[id].(terminal := true)])
    case Attach(host, processing) => s.(hosts := s.hosts[host := Host(false, processing, NoPass)], maxEpoch := host)
    case Crash(host) => s.(hosts := s.hosts - {host})
    case LoseGrant(host) => s.(hosts := s.hosts[host := s.hosts[host].(lost := true)])
    case LoadCursor(host, base) => WithPass(s, host, Loaded(base))
    case List(host, page) => WithPass(s, host, Scanning(s.hosts[host].pass.base, page, 0, false, false))
    case SkipTerminal(host) => WithPass(s, host, s.hosts[host].pass.(next := s.hosts[host].pass.next + 1))
    case Processed(host, reply) => WithPass(s, host, AfterReply(s.hosts[host].pass, reply))
    case CheckFence(host) => WithPass(s, host, Armed(Consumed(s.hosts[host].pass)))
    case SaveCursor(host) =>
      WithPass(s, host, NoPass).(cursor := s.hosts[host].pass.consumed, cursorEpoch := host)
    case EndPass(host) => WithPass(s, host, NoPass)
  }

  predicate Step(s: State, a: Action, t: State) { Enabled(s, a) && t == Apply(s, a) }

  datatype History = History(actions: seq<Action>, states: seq<State>)

  predicate Legal(h: History) {
    && |h.states| == |h.actions| + 1 && h.states[0] == Init()
    && forall i {:trigger h.actions[i]} :: 0 <= i < |h.actions| ==> Step(h.states[i], h.actions[i], h.states[i + 1])
  }

  function Now(h: History): State
    requires Legal(h)
  {
    h.states[|h.actions|]
  }

  function Extended(h: History, a: Action): (k: History)
    requires Legal(h) && Enabled(Now(h), a)
    ensures Legal(k) && Now(k) == Apply(Now(h), a)
  {
    var k := History(h.actions + [a], h.states + [Apply(Now(h), a)]);
    assert forall i :: 0 <= i < |h.actions| ==> k.actions[i] == h.actions[i] && k.states[i + 1] == h.states[i + 1];
    k
  }

  // ------------------------------------------------------------------------
  // The invariant
  // ------------------------------------------------------------------------

  /** Every command accepted at or before this order is terminal, and no later one will be accepted below it. */
  ghost predicate Attested(s: State, order: nat) {
    order <= s.maxOrder &&
    forall c :: c in s.commands && s.commands[c].order <= order ==> s.commands[c].terminal
  }

  ghost predicate PassOk(s: State, h: Host) {
    match h.pass
    case NoPass => true
    case Loaded(base) => Attested(s, base)
    case Scanning(base, page, next, swallowed, blocked) =>
      && next <= |page| && Ascending(page, base) && Listing(s, base, page)
      && (swallowed ==> h.lost)
      && (!swallowed ==> Attested(s, Consumed(h.pass)))
    case Armed(consumed) => Attested(s, consumed)
  }

  ghost predicate Inv(s: State) {
    && Attested(s, s.cursor)
    && (forall h :: h in s.hosts ==> PassOk(s, s.hosts[h]))
  }

  /** Terminal commands stay so, orders stay, and new commands come after every earlier order. */
  ghost predicate Grows(s: State, t: State) {
    && s.maxOrder <= t.maxOrder
    && (forall c :: c in s.commands ==>
          c in t.commands && t.commands[c].order == s.commands[c].order &&
          (s.commands[c].terminal ==> t.commands[c].terminal))
    && (forall c :: c in t.commands && c !in s.commands ==> s.maxOrder < t.commands[c].order)
  }

  lemma StepGrows(s: State, a: Action)
    requires Enabled(s, a)
    ensures Grows(s, Apply(s, a))
  {
  }

  lemma PassGrows(s: State, t: State, h: Host)
    requires Grows(s, t) && PassOk(s, h)
    ensures PassOk(t, h)
  {
    if h.pass.Scanning? {
      ListingGrows(s, t, h.pass.base, h.pass.page);
    }
  }

  lemma ListingGrows(s: State, t: State, base: nat, page: seq<Listed>)
    requires Grows(s, t) && Listing(s, base, page)
    ensures Listing(t, base, page)
  {
    forall i | 0 <= i < |page| ensures RowTrue(t, page[i]) { assert RowTrue(s, page[i]); }
    if page != [] { assert RowTrue(s, Last(page)); }
  }

  /** Passing one more terminal row of a listing attests it. */
  lemma AttestRow(s: State, p: Pass)
    requires p.Scanning? && p.next < |p.page| && Ascending(p.page, p.base) && Listing(s, p.base, p.page)
    requires Attested(s, Consumed(p)) && p.page[p.next].id in s.commands && s.commands[p.page[p.next].id].terminal
    ensures Attested(s, Consumed(p.(next := p.next + 1)))
  {
    var row := p.page[p.next];
    assert RowTrue(s, row);
    forall c | c in s.commands && s.commands[c].order <= row.order ensures s.commands[c].terminal {
      if p.base < s.commands[c].order {
        assert Lists(p.page, c);
        var k :| 0 <= k < |p.page| && p.page[k].id == c;
        assert RowTrue(s, p.page[k]);
        assert k <= p.next;
        if k < p.next { assert p.page[k].order <= Consumed(p); }
      }
    }
  }

  /** A pass that does not move keeps what it has. */
  lemma BystanderOk(s: State, a: Action, h: nat)
    requires Enabled(s, a) && h in s.hosts && PassOk(s, s.hosts[h])
    requires h in Apply(s, a).hosts && Apply(s, a).hosts[h].pass == s.hosts[h].pass
    ensures PassOk(Apply(s, a), Apply(s, a).hosts[h])
  {
    StepGrows(s, a);
    PassGrows(s, Apply(s, a), s.hosts[h]);
  }

  /** Moving on past a row: attested if it is terminal, and otherwise swallowed under a lost grant. */
  lemma PassedRow(s: State, h: nat, host: Host)
    requires AtRow(s, h) && PassOk(s, s.hosts[h]) && Row(s, h).id in s.commands
    requires host.lost == s.hosts[h].lost
    requires
      || (host.pass == s.hosts[h].pass.(next := s.hosts[h].pass.next + 1) && s.commands[Row(s, h).id].terminal)
      || (host.pass == s.hosts[h].pass.(next := s.hosts[h].pass.next + 1, swallowed := true) && host.lost)
    ensures PassOk(s, host)
  {
    var p := s.hosts[h].pass;
    if !p.swallowed && !host.pass.swallowed { AttestRow(s, p); }
  }

  lemma MoverOk(s: State, a: Action, h: nat)
    requires Inv(s) && Enabled(s, a) && h in Apply(s, a).hosts
    requires h !in s.hosts || Apply(s, a).hosts[h].pass != s.hosts[h].pass
    ensures PassOk(Apply(s, a), Apply(s, a).hosts[h])
  {
    var t := Apply(s, a);
    if h in s.hosts { assert PassOk(s, s.hosts[h]); }
    if a.SkipTerminal? || (a.Processed? && Consumes(a.reply)) {
      assert RowTrue(s, Row(s, h));
      PassedRow(s, h, t.hosts[h]);
      PassOkOf(s, t, t.hosts[h]);
    } else if a.Processed? || a.List? {
      assert PassOk(s, t.hosts[h]);
      PassOkOf(s, t, t.hosts[h]);
    }
  }

  /** What a pass relies on is about the commands alone. */
  lemma PassOkOf(s: State, t: State, host: Host)
    requires PassOk(s, host) && t.commands == s.commands && t.maxOrder == s.maxOrder
    ensures PassOk(t, host)
  {
    assert Grows(s, t);
    PassGrows(s, t, host);
  }

  lemma StepHost(s: State, a: Action, h: nat)
    requires Inv(s) && Enabled(s, a) && h in Apply(s, a).hosts
    ensures PassOk(Apply(s, a), Apply(s, a).hosts[h])
  {
    if h in s.hosts && Apply(s, a).hosts[h].pass == s.hosts[h].pass { BystanderOk(s, a, h); } else { MoverOk(s, a, h); }
  }

  lemma StepInv(s: State, a: Action)
    requires Inv(s) && Enabled(s, a)
    ensures Inv(Apply(s, a))
  {
    StepGrows(s, a);
    forall h | h in Apply(s, a).hosts ensures PassOk(Apply(s, a), Apply(s, a).hosts[h]) { StepHost(s, a, h); }
    if a.SaveCursor? { assert PassOk(s, s.hosts[a.host]); }
  }

  // ------------------------------------------------------------------------
  // Theorems
  // ------------------------------------------------------------------------

  lemma {:induction false} ReachableInv(h: History, i: nat)
    requires Legal(h) && i <= |h.actions|
    ensures Inv(h.states[i])
  {
    if i > 0 {
      ReachableInv(h, i - 1);
      assert Step(h.states[i - 1], h.actions[i - 1], h.states[i]);
      StepInv(h.states[i - 1], h.actions[i - 1]);
    }
  }

  /** In every reachable state, every command at or below the durable cursor is terminal in the store. */
  lemma CursorAttests(h: History, i: nat, c: CommandId)
    requires Legal(h) && i <= |h.actions| && c in h.states[i].commands
    requires h.states[i].commands[c].order <= h.states[i].cursor
    ensures h.states[i].commands[c].terminal
  {
    ReachableInv(h, i);
  }

  lemma {:induction false} LaterCursor(h: History, i: nat, j: nat)
    requires Legal(h) && i <= j <= |h.actions|
    ensures h.states[i].cursor <= h.states[j].cursor && h.states[i].cursorEpoch <= h.states[j].cursorEpoch
    decreases j
  {
    if i < j {
      LaterCursor(h, i, j - 1);
      assert Step(h.states[j - 1], h.actions[j - 1], h.states[j]);
    }
  }

  /** The durable cursor never goes back, and once a later Host has written it no earlier one ever does again. */
  lemma CursorNeverRetreats(h: History, i: nat, j: nat)
    requires Legal(h) && i < j < |h.actions| && h.actions[i].SaveCursor? && h.actions[j].SaveCursor?
    ensures h.actions[i].host <= h.actions[j].host && h.states[i + 1].cursor <= h.states[j + 1].cursor
  {
    assert Step(h.states[i], h.actions[i], h.states[i + 1]);
    LaterCursor(h, i + 1, j);
    assert Step(h.states[j], h.actions[j], h.states[j + 1]);
  }

  /** The Host's pass, if it is at a page, stopped at a command it could not pass. */
  ghost predicate Balked(s: State, host: nat) {
    host <= s.maxEpoch && (host in s.hosts && s.hosts[host].pass.Scanning? ==> s.hosts[host].pass.blocked)
  }

  /** The action moves the Host's pass on to its next row. */
  predicate MovesOn(a: Action, host: nat) { (a.Processed? || a.SkipTerminal?) && a.host == host }

  predicate ListsPage(a: Action, host: nat) { a.List? && a.host == host }

  lemma BalkedStays(s: State, a: Action, host: nat)
    requires Enabled(s, a) && Balked(s, host) && !ListsPage(a, host)
    ensures Balked(Apply(s, a), host) && !MovesOn(a, host)
  {
  }

  /**
   A pass that balked at a command passes no later one: the Host goes on only from a page it lists anew.
   */
  lemma {:induction false} BalkedPassEnds(h: History, i: nat, j: nat)
    requires Legal(h) && i < j < |h.actions| && h.actions[i].Processed?
    requires h.actions[i].reply.refused || (!Terminal(h.actions[i].reply.state) && !h.actions[i].reply.prefixOwned)
    requires forall k :: i < k < j ==> !ListsPage(h.actions[k], h.actions[i].host)
    ensures Balked(h.states[j], h.actions[i].host) && !MovesOn(h.actions[j], h.actions[i].host)
    decreases j
  {
    assert Step(h.states[i], h.actions[i], h.states[i + 1]);
    ReachableEpochs(h, i);
    if i + 1 < j {
      BalkedPassEnds(h, i, j - 1);
      assert Step(h.states[j - 1], h.actions[j - 1], h.states[j]);
      BalkedStays(h.states[j - 1], h.actions[j - 1], h.actions[i].host);
    }
    assert Step(h.states[j], h.actions[j], h.states[j + 1]);
    if !ListsPage(h.actions[j], h.actions[i].host) { BalkedStays(h.states[j], h.actions[j], h.actions[i].host); }
  }

  /** The host's grant is gone and its pass is not past the fence. */
  ghost predicate Barred(s: State, host: nat) {
    host <= s.maxEpoch && (host in s.hosts ==> s.hosts[host].lost && !s.hosts[host].pass.Armed?)
  }

  lemma BarredStays(s: State, a: Action, host: nat)
    requires Enabled(s, a) && Barred(s, host)
    ensures Barred(Apply(s, a), host) && a != SaveCursor(host)
  {
  }

  ghost predicate EpochsOk(s: State) { forall h :: h in s.hosts ==> h <= s.maxEpoch }

  lemma {:induction false} ReachableEpochs(h: History, i: nat)
    requires Legal(h) && i <= |h.actions|
    ensures EpochsOk(h.states[i])
  {
    if i > 0 {
      ReachableEpochs(h, i - 1);
      assert Step(h.states[i - 1], h.actions[i - 1], h.states[i]);
    }
  }

  /**
   The pass consumes a command that its Processor did not leave terminal, on the strength of an owned prefix alone.
   */
  predicate Swallows(a: Action) { a.Processed? && Consumes(a.reply) && !Terminal(a.reply.state) }

  /** Only a legacy Processor whose grant is gone is answered so; the disposition applier never is. */
  lemma SwallowedUnderALostGrant(h: History, i: nat)
    requires Legal(h) && i < |h.actions| && Swallows(h.actions[i])
    ensures var s, host := h.states[i], h.actions[i].host;
            host in s.hosts && s.hosts[host].processing == ByLegacy && s.hosts[host].lost
  {
    assert Step(h.states[i], h.actions[i], h.states[i + 1]);
  }

  /** The "prefix owned" arm never durably moves the cursor: not in that pass, nor in any later one of its Host. */
  lemma {:induction false} SwallowedNeverSaves(h: History, i: nat, j: nat)
    requires Legal(h) && i < j < |h.actions| && Swallows(h.actions[i])
    ensures Barred(h.states[j], h.actions[i].host) && h.actions[j] != SaveCursor(h.actions[i].host)
    decreases j
  {
    assert Step(h.states[i], h.actions[i], h.states[i + 1]);
    ReachableEpochs(h, i);
    if i + 1 < j {
      SwallowedNeverSaves(h, i, j - 1);
      assert Step(h.states[j - 1], h.actions[j - 1], h.states[j]);
      BarredStays(h.states[j - 1], h.actions[j - 1], h.actions[i].host);
    }
    assert Step(h.states[j], h.actions[j], h.states[j + 1]);
    BarredStays(h.states[j], h.actions[j], h.actions[i].host);
  }
}
