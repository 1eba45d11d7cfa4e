/**
 The gate publisher: an incremental, interruptible fold of the runtime's journal
 into the set of open gates, and the convergence of a capacity-bounded projection
 on that set.
 */
module Gates {
  import opened Base

  type GateId = nat

  datatype Event = GateOpened(id: GateId) | GateResolved(id: GateId) | OtherEvent

  datatype Entry = Entry(event: Event, seqno: nat)

  predicate Ordered(journal: seq<Entry>) {
    (forall i :: 0 <= i < |journal| ==> 1 <= journal[i].seqno) &&
    (forall i, j :: 0 <= i < j < |journal| ==> journal[i].seqno < journal[j].seqno)
  }

  function FoldEvent(open: map<GateId, nat>, e: Entry): map<GateId, nat> {
    match e.event
    case GateOpened(id) => open[id := e.seqno]
    case GateResolved(id) => open - {id}
    case OtherEvent => open
  }

  /** A fresh fold of the journal's first n entries: each open gate, with the sequence that opened it. */
  function Fold(journal: seq<Entry>, n: nat): map<GateId, nat>
    requires n <= |journal|
  {
    if n == 0 then map[] else FoldEvent(Fold(journal, n - 1), journal[n - 1])
  }

  /** The first n entries are exactly those below the sequence `next`. */
  predicate Splits(journal: seq<Entry>, next: nat, n: nat) {
    && n <= |journal|
    && (forall i :: 0 <= i < n ==> journal[i].seqno < next)
    && (forall i :: n <= i < |journal| ==> next <= journal[i].seqno)
  }

  /** The sequence a publisher reads on from after its first n entries. */
  function NextAfter(journal: seq<Entry>, n: nat): nat
    requires n <= |journal|
  {
    if n == 0 then 1 else journal[n - 1].seqno + 1
  }

  /** Reading on from there visits exactly the entries not yet folded. */
  lemma NextSplits(journal: seq<Entry>, n: nat)
    requires Ordered(journal) && n <= |journal|
    ensures Splits(journal, NextAfter(journal, n), n)
  {
  }

  /** A gate is open in the fold exactly when it was opened there and not opened or resolved since. */
  lemma {:induction false} FoldMeansOpen(journal: seq<Entry>, n: nat, id: GateId)
    requires n <= |journal|
    ensures id in Fold(journal, n) <==>
              exists i :: 0 <= i < n && journal[i].event == GateOpened(id) && Fold(journal, n).Keys >= {id} &&
                Fold(journal, n)[id] == journal[i].seqno && Untouched(journal, i + 1, n, id)
  {
    if n > 0 {
      FoldMeansOpen(journal, n - 1, id);
      var e := journal[n - 1];
      if id in Fold(journal, n) && e.event != GateOpened(id) {
        var i :| 0 <= i < n - 1 && journal[i].event == GateOpened(id) && Fold(journal, n - 1)[id] == journal[i].seqno &&
                 Untouched(journal, i + 1, n - 1, id);
        assert Untouched(journal, i + 1, n, id);
      } else if id in Fold(journal, n) {
        assert Untouched(journal, n, n, id);
      }
    }
  }

  predicate Untouched(journal: seq<Entry>, from: nat, to: nat, id: GateId)
    requires to <= |journal|
  {
    forall k :: from <= k < to ==> journal[k].event != GateOpened(id) && journal[k].event != GateResolved(id)
  }

  /** Appending to the journal changes no earlier fold. */
  lemma {:induction false} FoldPrefix(j: seq<Entry>, k: seq<Entry>, n: nat)
    requires j <= k && n <= |j|
    ensures Fold(k, n) == Fold(j, n)
  {
    if n > 0 { FoldPrefix(j, k, n - 1); }
  }

  /** Two gates are never opened at one sequence, so oldest-first is a total order on open gates. */
  lemma {:induction false} FoldDistinct(journal: seq<Entry>, n: nat)
    requires Ordered(journal) && n <= |journal|
    ensures forall a, b :: a in Fold(journal, n) && b in Fold(journal, n) && a != b ==>
        Fold(journal, n)[a] != Fold(journal, n)[b]
    ensures forall a :: a in Fold(journal, n) ==> n > 0 && Fold(journal, n)[a] <= journal[n - 1].seqno
  {
    if n > 0 {
      FoldDistinct(journal, n - 1);
      if n > 1 { assert journal[n - 2].seqno < journal[n - 1].seqno; }
    }
  }

  // ------------------------------------------------------------------------
  // The session: the runtime's journal and the durable projection
  // ------------------------------------------------------------------------

  datatype WriteAnswer = WriteOk | Superseded | Unpublishable | Full | WriteFailed

  class Session {
    const capacity: nat

    /** Gates the store can never project. */
    const dead: set<GateId>

    var journal: seq<Entry>
    var projection: set<GateId>

    /** Every gate this Host opened in or resolved from the projection. */
    ghost var touched: set<GateId>

    /** What every write this Host made to the projection was answered. */
    ghost var writes: seq<WriteAnswer>

    /** How many reads, of the journal or of the projection, were cut short. */
    ghost var cut: nat

    constructor (capacity: nat, dead: set<GateId>, projection: set<GateId>)
      ensures this.capacity == capacity && this.dead == dead && this.projection == projection
      ensures journal == [] && touched == {} && writes == [] && cut == 0
    {
      this.capacity, this.dead, this.projection := capacity, dead, projection;
      journal, touched, writes, cut := [], {}, [], 0;
    }

    /** The projection, unless it could not be read. */
    method Projected() returns (r: Option<set<GateId>>)
      modifies this`cut
      ensures r.Some? ==> r.value == projection && cut == old(cut)
      ensures r.None? ==> cut == old(cut) + 1
    {
      if * {
        cut := cut + 1;
        return None;
      }
      r := Some(projection);
    }

    /** Whether the replay goes on to its next entry. */
    method Replays() returns (on: bool)
      modifies this`cut
      ensures cut == old(cut) + if on then 0 else 1
    {
      on := *;
      if !on { cut := cut + 1; }
    }

    /** The fencing write: it names no gate, and takes the projection over from a predecessor. */
    method Fence() returns (r: WriteAnswer)
      modifies this`writes
      ensures r.WriteOk? || r.Superseded? || r.WriteFailed?
      ensures writes == old(writes) + [r]
    {
      if * { r := WriteOk; } else if * { r := Superseded; } else { r := WriteFailed; }
      writes := writes + [r];
    }

    /** The runtime appends events; nobody else writes the projection past this Host's fence. */
    method RuntimeAppends(events: seq<Event>)
      requires Ordered(journal)
      modifies this`journal
      ensures Ordered(journal) && old(journal) <= journal
    {
      var i := 0;
      while i < |events|
        invariant 0 <= i <= |events| && Ordered(journal) && old(journal) <= journal
      {
        var last := if journal == [] then 0 else journal[|journal| - 1].seqno;
        journal := journal + [Entry(events[i], last + 1)];
        i := i + 1;
      }
    }

    // A write that fails may have landed all the same.
    method Resolve(id: GateId) returns (r: WriteAnswer)
      modifies this`projection, this`touched, this`writes
      ensures writes == old(writes) + [r]
      ensures r.WriteOk? || r.Superseded? || r.WriteFailed?
      ensures touched == old(touched) + {id}
      ensures r.WriteOk? ==> projection == old(projection) - {id}
      ensures r.WriteFailed? ==> projection == old(projection) || projection == old(projection) - {id}
      ensures r.Superseded? ==> projection == old(projection)
    {
      touched := touched + {id};
      if * {
        r := Superseded;
      } else if * {
        r := WriteFailed;
      } else {
        projection := projection - {id};
        if * { r := WriteFailed; } else { r := WriteOk; }
      }
      writes := writes + [r];
    }

    /** Full exactly when there is no room; a dead gate is refused for good. */
    method Open(id: GateId) returns (r: WriteAnswer)
      modifies this`projection, this`touched, this`writes
      ensures writes == old(writes) + [r]
      ensures touched == old(touched) + {id}
      ensures r.WriteOk? ==> projection == old(projection) + {id}
      ensures r.WriteFailed? ==> projection == old(projection) || projection == old(projection) + {id}
      ensures r.Superseded? || r.Full? || r.Unpublishable? ==> projection == old(projection)
      ensures r.Full? ==> capacity <= |old(projection)|
      ensures r.WriteOk? ==> id in old(projection) || |old(projection)| < capacity
      ensures r.Unpublishable? ==> id in dead
    {
      touched := touched + {id};
      if * {
        r := Superseded;
      } else if * {
        r := WriteFailed;
      } else if id in dead {
        r := Unpublishable;
      } else if id !in projection && capacity <= |projection| {
        r := Full;
      } else {
        projection := projection + {id};
        if * { r := WriteFailed; } else { r := WriteOk; }
      }
      writes := writes + [r];
    }
  }

  // ------------------------------------------------------------------------
  // The publisher
  // ------------------------------------------------------------------------

  datatype PassAnswer = PassOk | PassFailed | PassSuperseded

  /** None of the writes was refused for a successor's grant. */
  ghost predicate Unfenced(writes: seq<WriteAnswer>) {
    forall i :: 0 <= i < |writes| ==> !writes[i].Superseded?
  }

  /** The last write, and no write before it, was refused for a successor's grant. */
  ghost predicate EndsFenced(writes: seq<WriteAnswer>) {
    writes != [] && Last(writes).Superseded? && Unfenced(writes[..|writes| - 1])
  }

  /** Some write since then failed. */
  ghost predicate FailedSince(writes: seq<WriteAnswer>, since: nat) {
    exists k :: since <= k < |writes| && writes[k].WriteFailed?
  }

  lemma FailureStays(writes: seq<WriteAnswer>, later: seq<WriteAnswer>, since: nat)
    requires writes <= later && FailedSince(writes, since)
    ensures FailedSince(later, since)
  {
    var k :| since <= k < |writes| && writes[k].WriteFailed?;
    assert later[k].WriteFailed?;
  }

  /** A pass's answer says how its writes ended. */
  ghost predicate Writes(r: PassAnswer, writes: seq<WriteAnswer>) {
    if r.PassSuperseded? then EndsFenced(writes) else Unfenced(writes)
  }

  lemma NextWrite(writes: seq<WriteAnswer>, r: WriteAnswer)
    requires Unfenced(writes)
    ensures if r.Superseded? then EndsFenced(writes + [r]) else Unfenced(writes + [r])
  {
    assert (writes + [r])[..|writes|] == writes;
  }

  /**
   The projection is the fold's, as far as the store allows: nothing closed, and nothing the store could ever project
   missing for want of anything but room.
   */
  ghost predicate Converged(open: map<GateId, nat>, projection: set<GateId>, dead: set<GateId>, capacity: nat) {
    && projection <= open.Keys
    && (open.Keys <= projection + dead || capacity <= |projection|)
  }

  /** Every gate newly projected is older than every one left out that the store could ever project. */
  ghost predicate OldestFirst(open: map<GateId, nat>, was: set<GateId>, now: set<GateId>, dead: set<GateId>) {
    forall a, b :: a in now && a !in was && a in open && b in open && b !in now && b !in dead ==>
        open[a] < open[b]
  }

  /** What an incremental fold has reached: after the journal's first n entries. */
  ghost predicate FoldOk(journal: seq<Entry>, n: nat, next: nat, open: map<GateId, nat>) {
    Ordered(journal) && n <= |journal| && next == NextAfter(journal, n) && open == Fold(journal, n)
  }

  lemma FoldOkNext(journal: seq<Entry>, n: nat, next: nat, open: map<GateId, nat>)
    requires FoldOk(journal, n, next, open) && n < |journal|
    ensures next <= journal[n].seqno
    ensures FoldOk(journal, n + 1, journal[n].seqno + 1, FoldEvent(open, journal[n]))
  {
    NextSplits(journal, n);
  }

  lemma FoldOkAppended(j: seq<Entry>, k: seq<Entry>, n: nat, next: nat, open: map<GateId, nat>)
    requires FoldOk(j, n, next, open) && j <= k && Ordered(k)
    ensures FoldOk(k, n, next, open)
  {
    FoldPrefix(j, k, n);
  }

  /** Clean: no gate event lies between the last convergence and the fold's position. */
  ghost predicate CleanOk(journal: seq<Entry>, convergedAt: nat, at: nat, dirty: bool) {
    && convergedAt <= at <= |journal|
    && (!dirty ==> forall k :: convergedAt <= k < at ==> journal[k].event.OtherEvent?)
  }

  /** What a complete fold of the first n entries reports. */
  ghost predicate ActivityOk(journal: seq<Entry>, n: nat, next: nat, openCount: nat) {
    n <= |journal| && next == NextAfter(journal, n) && openCount == |Fold(journal, n)|
  }

  lemma FoldReports(journal: seq<Entry>, n: nat, next: nat, open: map<GateId, nat>)
    requires FoldOk(journal, n, next, open)
    ensures ActivityOk(journal, n, next, |open|)
  {
  }

  lemma CleanNext(journal: seq<Entry>, convergedAt: nat, at: nat, dirty: bool)
    requires CleanOk(journal, convergedAt, at, dirty) && at < |journal|
    ensures CleanOk(journal, convergedAt, at + 1, dirty || !journal[at].event.OtherEvent?)
  {
  }

  ghost predicate Distinct(open: map<GateId, nat>) {
    forall a, b :: a in open && b in open && a != b ==> open[a] != open[b]
  }

  ghost predicate Ascending(open: map<GateId, nat>, ids: seq<GateId>) {
    (forall i :: 0 <= i < |ids| ==> ids[i] in open) &&
    (forall i, j :: 0 <= i < j < |ids| ==> open[ids[i]] < open[ids[j]])
  }

  /** A selection under way: the picked gates are all older than the ones left. */
  ghost predicate Picked(open: map<GateId, nat>, wanted: set<GateId>, picked: seq<GateId>, left: set<GateId>) {
    && left <= wanted <= open.Keys
    && (forall id :: id in picked ==> id in wanted && id !in left)
    && (forall id :: id in wanted ==> id in picked || id in left)
    && (forall a, b :: a in picked && b in left ==> a in open && b in open && open[a] < open[b])
  }

  lemma PickedNext(open: map<GateId, nat>, wanted: set<GateId>, picked: seq<GateId>, left: set<GateId>, id: GateId)
    requires Ascending(open, picked) && Picked(open, wanted, picked, left) && id in left
    requires forall other :: other in left && other != id ==> open[id] < open[other]
    ensures Ascending(open, picked + [id]) && Picked(open, wanted, picked + [id], left - {id})
  {
    var next := picked + [id];
    forall i, j | 0 <= i < j < |next| ensures open[next[i]] < open[next[j]] {
      assert next[i] in picked;
    }
  }

  class Publisher {
    const session: Session
    var fenced: bool
    var open: map<GateId, nat>
    var next: nat
    var dirty: bool
    var unpublishable: set<GateId>
    var superseded: bool
    var passes: nat

    // What the last complete fold saw.
    var folded: bool
    var openCount: nat
    var foldedNext: nat

    /** How many entries of the journal are folded, and how many were at the last successful convergence. */
    ghost var at: nat
    ghost var convergedAt: nat
    ghost var foldedAt: nat

    constructor (session: Session)
      requires Ordered(session.journal)
      ensures this.session == session && Valid() && !fenced && !superseded && open == map[] && passes == 0
    {
      this.session := session;
      fenced, open, next, dirty, unpublishable, superseded, passes := false, map[], 1, true, {}, false, 0;
      folded, openCount, foldedNext := false, 0, 0;
      at, convergedAt, foldedAt := 0, 0, 0;
    }

    /** The incremental fold is the fresh one. */
    ghost predicate FoldValid()
      reads this`open, this`next, this`at, session`journal
    {
      FoldOk(session.journal, at, next, open)
    }

    /** A clean publisher has folded no gate event since it converged, and its projection is converged on its fold. */
    ghost predicate CleanValid()
      reads this`dirty, this`at, this`convergedAt, this`open, session`journal, session`projection
    {
      CleanOk(session.journal, convergedAt, at, dirty) &&
      (!dirty ==> Converged(open, session.projection, session.dead, session.capacity))
    }

    /** What Activity answers is what some complete fold saw. */
    ghost predicate ActivityValid()
      reads this`folded, this`foldedNext, this`openCount, this`foldedAt, session`journal
    {
      folded ==> ActivityOk(session.journal, foldedAt, foldedNext, openCount)
    }

    ghost predicate Valid()
      reads this, session
    {
      // Only what the store can never project is ever given up on.
      FoldValid() && CleanValid() && ActivityValid() && unpublishable <= session.dead
    }

    /** The runtime's own appends keep the publisher valid, and a clean one clean. */
    method Appended(events: seq<Event>)
      requires Valid()
      modifies session`journal
      ensures Valid() && old(session.journal) <= session.journal
    {
      ghost var before := session.journal;
      session.RuntimeAppends(events);
      FoldOkAppended(before, session.journal, at, next, open);
      if folded { FoldPrefix(before, session.journal, foldedAt); }
    }

    /** Applies every entry from the next unread sequence on, until the replay ends or is interrupted. */
    method FoldJournal() returns (complete: bool)
      requires FoldValid() && CleanValid()
      modifies this`open, this`next, this`dirty, this`at, session`cut
      ensures FoldValid() && CleanValid() && old(at) <= at && (old(dirty) ==> dirty)
      ensures session.cut == old(session.cut) + if complete then 0 else 1
      ensures complete ==> at == |session.journal|
    {
      NextSplits(session.journal, at);
      var i := 0;
      while i < |session.journal| && session.journal[i].seqno < next
        invariant i <= at
      {
        i := i + 1;
      }
      while i < |session.journal|
        invariant i == at && FoldValid() && CleanValid() && old(at) <= at && (old(dirty) ==> dirty)
        invariant session.cut == old(session.cut)
      {
        var on := session.Replays();
        if !on { return false; }
        Visit(session.journal[i]);
        i := i + 1;
      }
      complete := true;
    }

    /** One visited entry. */
    method Visit(e: Entry)
      requires FoldValid() && CleanValid() && at < |session.journal| && session.journal[at] == e
      modifies this`open, this`next, this`dirty, this`at
      ensures FoldValid() && CleanValid() && at == old(at) + 1
      // A gate event always leaves the publisher dirty.
      ensures dirty == (old(dirty) || !e.event.OtherEvent?)
    {
      FoldOkNext(session.journal, at, next, open);
      CleanNext(session.journal, convergedAt, at, dirty);
      match e.event {
        case GateOpened(id) => open, dirty := open[id := e.seqno], true;
        case GateResolved(id) => open, dirty := open - {id}, true;
        case OtherEvent =>
      }
      if next <= e.seqno { next := e.seqno + 1; }
      at := at + 1;
    }

    /** The gates to open: open in the fold, not projected, not known unpublishable; oldest first. */
    method Pending(have: set<GateId>) returns (pending: seq<GateId>)
      requires Distinct(open)
      ensures forall id :: id in pending <==> id in open && id !in have && id !in unpublishable
      ensures Ascending(open, pending)
    {
      var wanted := set id | id in open.Keys && id !in have && id !in unpublishable;
      var left := wanted;
      pending := [];
      while left != {}
        invariant left <= wanted && Ascending(open, pending) && Picked(open, wanted, pending, left)
        decreases |left|
      {
        var id := Oldest(left);
        PickedNext(open, wanted, pending, left, id);
        pending := pending + [id];
        left := left - {id};
      }
    }

    method Oldest(ids: set<GateId>) returns (id: GateId)
      requires Distinct(open) && ids != {} && ids <= open.Keys
      ensures id in ids && forall other :: other in ids && other != id ==> open[id] < open[other]
    {
      id :| id in ids;
      var left := ids - {id};
      while left != {}
        invariant left <= ids && id in ids && id !in left
        invariant forall other :: other in ids && other !in left && other != id ==> open[id] < open[other]
        decreases |left|
      {
        var other :| other in left;
        left := left - {other};
        if open[other] < open[id] { id := other; }
      }
    }

    /** Resolves every projected gate the fold has closed, before anything is opened. */
    method ResolveClosed() returns (r: PassAnswer)
      requires Unfenced(session.writes)
      modifies session`projection, session`touched, session`writes
      ensures Writes(r, session.writes)
      ensures old(session.projection) * open.Keys <= session.projection <= old(session.projection)
      ensures session.touched <= old(session.touched) + (old(session.projection) - open.Keys)
      ensures r.PassOk? ==> session.projection == old(session.projection) * open.Keys
      ensures !r.PassSuperseded? ==> old(session.projection) - open.Keys <= session.touched
      ensures old(session.writes) <= session.writes
      ensures r.PassFailed? ==> FailedSince(session.writes, |old(session.writes)|)
    {
      var closed := set id | id in session.projection && id !in open;
      assert old(session.projection) - closed == old(session.projection) * open.Keys;
      assert closed == old(session.projection) - open.Keys;
      r := ResolveAll(closed);
    }

    method ResolveAll(closed: set<GateId>) returns (r: PassAnswer)
      requires Unfenced(session.writes)
      modifies session`projection, session`touched, session`writes
      ensures Writes(r, session.writes)
      ensures old(session.projection) - closed <= session.projection <= old(session.projection)
      ensures session.touched <= old(session.touched) + closed
      ensures r.PassOk? ==> session.projection == old(session.projection) - closed
      ensures !r.PassSuperseded? ==> closed <= session.touched
      ensures old(session.writes) <= session.writes
      ensures r.PassFailed? ==> FailedSince(session.writes, |old(session.writes)|)
    {
      r := PassOk;
      var left := closed;
      while left != {}
        invariant left <= closed && !r.PassSuperseded? && Unfenced(session.writes)
        invariant old(session.projection) - closed <= session.projection <= old(session.projection)
        invariant session.touched <= old(session.touched) + closed
        invariant old(session.writes) <= session.writes
        invariant r.PassFailed? ==> FailedSince(session.writes, |old(session.writes)|)
        invariant closed - left <= session.touched
        invariant r.PassOk? ==> forall id :: id in session.projection <==>
            id in old(session.projection) && (id !in closed || id in left)
        decreases |left|
      {
        var id :| id in left;
        left := left - {id};
        ghost var before := session.writes;
        var answer := session.Resolve(id);
        NextWrite(before, answer);
        if answer.Superseded? { return PassSuperseded; }
        if r.PassFailed? { FailureStays(before, session.writes, |old(session.writes)|); }
        if answer.WriteFailed? { r := PassFailed; assert session.writes[|before|].WriteFailed?; }
      }
    }

    /** Opens the pending gates in order into whatever room there is. */
    method OpenPending(pending: seq<GateId>) returns (r: PassAnswer)
      requires forall i, j :: 0 <= i < j < |pending| ==> pending[i] != pending[j]
      requires forall i :: 0 <= i < |pending| ==> pending[i] !in session.projection
      requires Unfenced(session.writes) && unpublishable <= session.dead
      modifies this`unpublishable, session`projection, session`touched, session`writes
      ensures Writes(r, session.writes) && old(session.writes) <= session.writes
      ensures r.PassFailed? ==> FailedSince(session.writes, |old(session.writes)|)
      ensures old(unpublishable) <= unpublishable <= session.dead
      ensures old(session.projection) <= session.projection <= old(session.projection) + (set id | id in pending)
      ensures old(session.touched) <= session.touched <= old(session.touched) + (set id | id in pending)
      ensures r.PassOk? ==> Filled(pending, session.projection, unpublishable)
      // A gate whose write failed keeps none after it from being tried.
      ensures !r.PassSuperseded? ==> forall id :: id in pending ==> id in session.touched
    {
      ghost var was := session.projection;
      ghost var room := 0;
      var i := 0;
      r := PassOk;
      while i < |pending|
        invariant i <= |pending| && old(unpublishable) <= unpublishable <= session.dead && !r.PassSuperseded?
        invariant Unfenced(session.writes) && old(session.writes) <= session.writes
        invariant r.PassFailed? ==> FailedSince(session.writes, |old(session.writes)|)
        invariant was <= session.projection <= was + (set id | id in pending)
        invariant old(session.touched) <= session.touched <= old(session.touched) + (set id | id in pending)
        invariant forall j :: 0 <= j < i ==> pending[j] in session.touched
        invariant r.PassOk? ==> FilledTo(pending, i, session.projection, unpublishable, room)
        invariant forall j :: i <= j < |pending| ==> pending[j] !in session.projection
      {
        ghost var before := session.writes;
        var answer := session.Open(pending[i]);
        NextWrite(before, answer);
        if r.PassFailed? { FailureStays(before, session.writes, |old(session.writes)|); }
        match answer {
          case WriteOk => room := if room == i then i + 1 else room;
          case Superseded => return PassSuperseded;
          case Unpublishable =>
            unpublishable := unpublishable + {pending[i]};
            room := if room == i then i + 1 else room;
          case Full =>
          case WriteFailed =>
            r := PassFailed;
            assert session.writes[|before|].WriteFailed?;
        }
        i := i + 1;
      }
    }

    /**
     Of the first n pending gates, the first `room` are projected or unpublishable; the rest found the projection
     full.
     */
    ghost predicate FilledTo(pending: seq<GateId>, n: nat, projection: set<GateId>, unpublishable: set<GateId>,
        room: nat) {
      && room <= n <= |pending|
      && (forall j :: 0 <= j < room ==> pending[j] in projection || pending[j] in unpublishable)
      && (forall j :: room <= j < n ==> pending[j] !in projection)
      && (room < n ==> session.capacity <= |projection|)
    }

    ghost predicate Filled(pending: seq<GateId>, projection: set<GateId>, unpublishable: set<GateId>) {
      exists room: nat :: FilledTo(pending, |pending|, projection, unpublishable, room)
    }

    /**
     Converges the projection on the fold.  Whatever happens, a gate already projected and still open is
     neither resolved nor opened again.  On success no closed gate is projected, and either every
     publishable open gate is, or the projection is at capacity and took its new gates oldest first.
     */
    method Converge() returns (r: PassAnswer)
      requires FoldValid() && Unfenced(session.writes) && unpublishable <= session.dead
      modifies this`unpublishable, session`projection, session`touched, session`writes, session`cut
      ensures Writes(r, session.writes) && old(session.writes) <= session.writes
      // It fails only for a read cut short or a write that failed; a gate left out for want of room is no failure.
      ensures r.PassFailed? ==> session.cut > old(session.cut) ||
                                FailedSince(session.writes, |old(session.writes)|)
      ensures session.cut >= old(session.cut)
      // Once the projection is read, every closed gate in it and every publishable open one missing from it is tried.
      ensures session.cut == old(session.cut) && !r.PassSuperseded? ==>
                && old(session.projection) - open.Keys <= session.touched
                && open.Keys - old(session.projection) - old(unpublishable) <= session.touched
      ensures old(unpublishable) <= unpublishable <= session.dead
      ensures old(session.projection) * open.Keys <= session.projection
      ensures (session.touched - old(session.touched)) !! (old(session.projection) * open.Keys)
      ensures r.PassOk? ==> Converged(open, session.projection, session.dead, session.capacity)
      ensures r.PassOk? ==> OldestFirst(open, old(session.projection), session.projection, session.dead)
    {
      var projected := session.Projected();
      if projected.None? { return PassFailed; }
      FoldDistinct(session.journal, at);
      var have := projected.value;
      var pending := Pending(have);
      r := ResolveClosed();
      if r.PassSuperseded? { return; }
      ghost var resolved := session.writes;
      var filling := OpenPending(pending);
      if r.PassFailed? && !filling.PassSuperseded? {
        FailureStays(resolved, session.writes, |old(session.writes)|);
      }
      if !filling.PassOk? { return filling; }
      if r.PassOk? { FilledConverges(have, pending, session.projection); }
    }

    lemma FilledConverges(have: set<GateId>, pending: seq<GateId>, projection: set<GateId>)
      requires forall id :: id in pending ==> id in open && id !in have
      requires forall id :: id in open && id !in have ==> id in pending || id in unpublishable
      requires Ascending(open, pending)
      requires have * open.Keys <= projection <= have * open.Keys + (set id | id in pending)
      requires Filled(pending, projection, unpublishable) && unpublishable <= session.dead
      ensures Converged(open, projection, session.dead, session.capacity)
      ensures OldestFirst(open, have, projection, session.dead)
    {
      var room: nat :| FilledTo(pending, |pending|, projection, unpublishable, room);
      forall a, b | a in projection && a !in have && a in open && b in open && b !in projection && b !in session.dead
        ensures open[a] < open[b]
      {
        var i :| 0 <= i < |pending| && pending[i] == a;
        var j :| 0 <= j < |pending| && pending[j] == b;
        assert i < room <= j;
      }
      if room == |pending| {
        forall id | id in open.Keys ensures id in projection + session.dead {
          if id !in have && id !in unpublishable {
            var i :| 0 <= i < |pending| && pending[i] == id;
          }
        }
      }
    }

    /** One pass: fence once, fold what was appended, and converge when the fold or a failure asks for it. */
    method Pass() returns (r: PassAnswer)
      requires Valid() && Unfenced(session.writes)
      modifies this`fenced, this`open, this`next, this`dirty, this`at, this`folded, this`openCount, this`foldedNext,
          this`foldedAt
      modifies this`unpublishable, this`passes, this`convergedAt
      modifies session`projection, session`touched, session`writes, session`cut
      ensures Valid() && old(at) <= at && old(unpublishable) <= unpublishable
      ensures Writes(r, session.writes) && old(session.writes) <= session.writes
      // No gate is opened or resolved by a Host whose fencing write has not succeeded.
      ensures r.PassOk? || session.touched != old(session.touched) ==> fenced
      ensures r.PassFailed? ==> session.cut > old(session.cut) ||
                                FailedSince(session.writes, |old(session.writes)|)
      ensures session.cut >= old(session.cut)
      ensures r.PassOk? ==> folded && foldedAt == at == |session.journal|
      // A pass leaves the projection converged on a fresh fold of the whole journal, having filled it oldest first.
      ensures r.PassOk? ==>
                Converged(Fold(session.journal, |session.journal|), session.projection, session.dead, session.capacity)
      ensures r.PassOk? ==>
                OldestFirst(Fold(session.journal, |session.journal|), old(session.projection), session.projection,
                  session.dead)
      // A projected gate that is still open is neither resolved nor opened again.
      ensures (session.touched - old(session.touched)) !!
              (old(session.projection) * Fold(session.journal, |session.journal|).Keys)
    {
      r := TakeOver();
      if !r.PassOk? { return; }
      r := FoldThenConverge();
    }

    /** What a fenced pass does. */
    method FoldThenConverge() returns (r: PassAnswer)
      requires Valid() && Unfenced(session.writes)
      modifies this`open, this`next, this`dirty, this`at, this`folded, this`openCount, this`foldedNext, this`foldedAt
      modifies this`unpublishable, this`passes, this`convergedAt
      modifies session`projection, session`touched, session`writes, session`cut
      ensures Valid() && old(at) <= at && old(unpublishable) <= unpublishable
      ensures Writes(r, session.writes) && old(session.writes) <= session.writes
      ensures r.PassFailed? ==> session.cut > old(session.cut) ||
                                FailedSince(session.writes, |old(session.writes)|)
      ensures session.cut >= old(session.cut)
      ensures r.PassOk? ==> folded && foldedAt == at == |session.journal|
      ensures r.PassOk? ==>
                Converged(Fold(session.journal, |session.journal|), session.projection, session.dead, session.capacity)
      ensures r.PassOk? ==>
                OldestFirst(Fold(session.journal, |session.journal|), old(session.projection), session.projection,
                  session.dead)
      ensures (session.touched - old(session.touched)) !!
              (old(session.projection) * Fold(session.journal, |session.journal|).Keys)
    {
      var complete := FoldAndPublish();
      if !complete { return PassFailed; }
      r := ConvergeIfDirty();
    }

    /** The fencing write; once it has succeeded it is not repeated. */
    method TakeOver() returns (r: PassAnswer)
      requires Unfenced(session.writes)
      modifies this`fenced, session`writes
      ensures Writes(r, session.writes) && (r.PassOk? <==> fenced) && old(session.writes) <= session.writes
      ensures r.PassFailed? ==> FailedSince(session.writes, |old(session.writes)|)
      ensures |session.writes| == |old(session.writes)| + if old(fenced) then 0 else 1
    {
      if fenced { return PassOk; }
      ghost var before := session.writes;
      var answer := session.Fence();
      NextWrite(before, answer);
      if answer.WriteOk? { fenced := true; }
      assert session.writes[|before|] == answer;
      r := if fenced then PassOk else if answer.Superseded? then PassSuperseded else PassFailed;
    }

    /** Folds what was appended; a complete fold is published for Activity. */
    method FoldAndPublish() returns (complete: bool)
      requires Valid()
      modifies this`open, this`next, this`dirty, this`at, this`folded, this`openCount, this`foldedNext, this`foldedAt
      modifies session`cut
      ensures FoldValid() && CleanValid() && ActivityValid() && old(at) <= at
      ensures session.cut == old(session.cut) + if complete then 0 else 1
      ensures complete ==> folded && foldedAt == at == |session.journal|
    {
      complete := FoldJournal();
      if complete { Publish(); }
    }

    /** What Activity answers from here on. */
    method Publish()
      requires FoldValid()
      modifies this`folded, this`openCount, this`foldedNext, this`foldedAt
      ensures ActivityValid() && folded && foldedAt == at
    {
      FoldReports(session.journal, at, next, open);
      folded, openCount, foldedNext, foldedAt := true, |open|, next, at;
    }

    /** A failed convergence leaves the publisher dirty, so the next pass tries again. */
    method ConvergeIfDirty() returns (r: PassAnswer)
      requires FoldValid() && CleanValid() && Unfenced(session.writes) && unpublishable <= session.dead
      modifies this`unpublishable, this`dirty, this`passes, this`convergedAt
      modifies session`projection, session`touched, session`writes, session`cut
      ensures Writes(r, session.writes) && old(session.writes) <= session.writes
      ensures r.PassFailed? ==> session.cut > old(session.cut) ||
                                FailedSince(session.writes, |old(session.writes)|)
      ensures old(unpublishable) <= unpublishable <= session.dead && session.cut >= old(session.cut)
      ensures CleanValid() && (r.PassOk? ==> !dirty)
      ensures passes == old(passes) + (if r.PassOk? && old(dirty) then 1 else 0)
      ensures r.PassOk? ==> OldestFirst(open, old(session.projection), session.projection, session.dead)
      ensures (session.touched - old(session.touched)) !! (old(session.projection) * open.Keys)
    {
      if !dirty { return PassOk; }
      r := Converge();
      if r.PassOk? {
        dirty, passes, convergedAt := false, passes + 1, at;
      }
    }

    /**
     The loop, over any appends between any passes.  A superseded grant stops it for good: the pass that met it
     is the last, and the write that was refused for it the last write.
     */
    method Run(hints: seq<seq<Event>>) returns (answers: seq<PassAnswer>)
      requires Valid() && !superseded && Unfenced(session.writes)
      modifies this, session`journal, session`projection, session`touched, session`writes, session`cut
      ensures Valid() && |answers| <= |hints|
      ensures old(session.journal) <= session.journal && old(session.writes) <= session.writes
      // With no read cut short and no write failed, no pass fails.
      ensures session.cut > old(session.cut) || FailedSince(session.writes, |old(session.writes)|) ||
              forall i :: 0 <= i < |answers| ==> !answers[i].PassFailed?
      // Whenever a pass ends well, nothing the store could ever project is left out beside a free place.
      ensures answers != [] && Last(answers).PassOk? ==>
                Converged(Fold(session.journal, |session.journal|), session.projection, session.dead, session.capacity)
      ensures forall i :: 0 <= i < |answers| - 1 ==> !answers[i].PassSuperseded?
      ensures superseded <==> answers != [] && Last(answers).PassSuperseded?
      ensures if superseded then EndsFenced(session.writes) else Unfenced(session.writes) && |answers| == |hints|
    {
      answers := [];
      while |answers| < |hints| && !superseded
        invariant Valid() && |answers| <= |hints|
        invariant old(session.journal) <= session.journal && old(session.writes) <= session.writes
        invariant session.cut >= old(session.cut)
        invariant session.cut > old(session.cut) || FailedSince(session.writes, |old(session.writes)|) ||
                  forall i :: 0 <= i < |answers| ==> !answers[i].PassFailed?
        invariant answers != [] && Last(answers).PassOk? ==>
            Converged(Fold(session.journal, |session.journal|), session.projection, session.dead, session.capacity)
        invariant forall i :: 0 <= i < |answers| - 1 ==> !answers[i].PassSuperseded?
        invariant superseded <==> answers != [] && Last(answers).PassSuperseded?
        invariant if superseded then EndsFenced(session.writes) else Unfenced(session.writes)
        decreases |hints| - |answers|
      {
        Appended(hints[|answers|]);
        ghost var before := session.writes;
        var r := Pass();
        if FailedSince(before, |old(session.writes)|) {
          FailureStays(before, session.writes, |old(session.writes)|);
        }
        if r.PassSuperseded? { superseded := true; }
        answers := answers + [r];
      }
    }
  }
}
