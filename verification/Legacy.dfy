/**
 The legacy command protocol as a transition system: one command's record under
 the store's compare-and-swap rules, the session's fenced append-only journal,
 and any number of Hosts deciding by `Plan` on what they have read, which may be
 stale by the time they act on it.

 The store here checks no evidence.  That an abandoned application is rejected
 only when it can never commit, and an applied one names its effect, rests on the
 Hosts' decisions alone.
 */
module Legacy {
  import opened Base
  import opened Recovery

  datatype Entry =
    | Prefix(id: CommandId, runtime: RuntimeId, epoch: nat)
    | Public(epoch: nat)
    | OpeningFence(epoch: nat)

  // ------------------------------------------------------------------------
  // What the journal proves about one command
  // ------------------------------------------------------------------------

  /** A walk of the journal: `unanswered` while the correlated prefix is the last entry read. */
  datatype Walk = Walk(
    outcome: Outcome, unanswered: bool, runtime: RuntimeId, prefixEpoch: nat,
    effectSeq: nat, effectEpoch: nat, superseding: nat, prefixes: nat)

  function Advance(w: Walk, id: CommandId, runtime: RuntimeId, e: Entry, seqno: nat): Walk {
    match e
    case Prefix(i, rt, epoch) =>
      if i != id then w.(unanswered := false)
      else w.(outcome := if rt == runtime then Unresolved else Conflicted, unanswered := rt == runtime,
              runtime := rt, prefixEpoch := epoch, prefixes := w.prefixes + 1)
    case Public(epoch) =>
      if w.unanswered then w.(outcome := Committed, unanswered := false, effectSeq := seqno, effectEpoch := epoch)
          else w
    case OpeningFence(epoch) =>
      var outcome := if w.unanswered && w.prefixEpoch < epoch then Abandoned else w.outcome;
      w.(outcome := outcome, unanswered := false, superseding := if w.superseding < epoch then epoch else w.superseding)
  }

  function Walked(journal: seq<Entry>, id: CommandId, runtime: RuntimeId): Walk {
    if journal == [] then Walk(Absent, false, 0, 0, 0, 0, 0, 0)
    else Advance(Walked(journal[..|journal| - 1], id, runtime), id, runtime, Last(journal), |journal|)
  }

  function FindApplication(journal: seq<Entry>, r: Record): Application {
    var w := Walked(journal, r.id, r.runtime);
    Application(r.id, w.runtime, w.outcome, w.prefixEpoch, w.effectSeq, w.superseding)
  }

  lemma WalkedAppend(journal: seq<Entry>, id: CommandId, runtime: RuntimeId, e: Entry)
    ensures Walked(journal + [e], id, runtime) == Advance(Walked(journal, id, runtime), id, runtime, e, |journal| + 1)
  {
    assert (journal + [e])[..|journal|] == journal;
  }

  predicate Names(e: Entry, id: CommandId) { e.Prefix? && e.id == id }

  /** The number of prefixes naming the command is counted. */
  lemma {:induction false} WalkCounts(journal: seq<Entry>, id: CommandId, runtime: RuntimeId)
    ensures Walked(journal, id, runtime).prefixes == 0 <==> forall i :: 0 <= i < |journal| ==> !Names(journal[i], id)
    ensures Walked(journal, id, runtime).prefixes == 0 ==>
        Walked(journal, id, runtime).outcome == Absent && !Walked(journal, id, runtime).unanswered
  {
    if journal != [] {
      var front := journal[..|journal| - 1];
      WalkCounts(front, id, runtime);
      assert journal == front + [Last(journal)];
      assert forall i :: 0 <= i < |front| ==> journal[i] == front[i];
    }
  }

  /** The journal last names the command here. */
  predicate Latest(journal: seq<Entry>, id: CommandId, i: nat) {
    && i < |journal| && Names(journal[i], id)
    && forall k :: i < k < |journal| ==> !Names(journal[k], id)
  }

  lemma {:induction false} LatestPrefix(journal: seq<Entry>, id: CommandId, runtime: RuntimeId) returns (i: nat)
    requires Walked(journal, id, runtime).prefixes > 0
    ensures Latest(journal, id, i)
  {
    if Names(Last(journal), id) {
      i := |journal| - 1;
    } else {
      i := LatestPrefix(journal[..|journal| - 1], id, runtime);
    }
  }

  /**
   The walk reads the entry right after a command's last prefix: the public event is its effect, a fence above
   it abandons it, and anything else leaves it unresolved.
   */
  lemma {:induction false} WalkMeans(journal: seq<Entry>, id: CommandId, runtime: RuntimeId, i: nat)
    requires Latest(journal, id, i) && journal[i].runtime == runtime
    ensures var w := Walked(journal, id, runtime); var followed := i + 1 < |journal|;
            && w.prefixEpoch == journal[i].epoch && w.runtime == runtime && w.unanswered == !followed
            && w.outcome == (if followed && journal[i + 1].Public? then Committed
                             else if followed && journal[i + 1].OpeningFence? &&
                                 journal[i].epoch < journal[i + 1].epoch then Abandoned
                             else Unresolved)
            && (w.outcome == Committed ==> w.effectSeq == i + 2 && w.effectEpoch == journal[i + 1].epoch)
  {
    var front := journal[..|journal| - 1];
    if i < |front| {
      WalkMeans(front, id, runtime, i);
      assert !Names(Last(journal), id);
    }
  }

  /** A prefix naming the command under another runtime identity is a conflict, whatever follows it. */
  lemma {:induction false} WalkRuntime(journal: seq<Entry>, id: CommandId, runtime: RuntimeId, i: nat)
    requires Latest(journal, id, i)
    ensures Walked(journal, id, runtime).runtime == journal[i].runtime
    ensures journal[i].runtime != runtime ==>
        Walked(journal, id, runtime).outcome == Conflicted && !Walked(journal, id, runtime).unanswered
  {
    var front := journal[..|journal| - 1];
    if i < |front| {
      WalkRuntime(front, id, runtime, i);
      assert !Names(Last(journal), id);
    }
  }

  /** The superseding epoch is the highest of the journal's opening fences, whatever their order. */
  lemma {:induction false} SupersedingIsHighest(journal: seq<Entry>, id: CommandId, runtime: RuntimeId)
    ensures var w := Walked(journal, id, runtime);
            && (forall e: nat :: OpeningFence(e) in journal ==> e <= w.superseding)
            && (w.superseding == 0 || OpeningFence(w.superseding) in journal)
  {
    if journal != [] {
      var front := journal[..|journal| - 1];
      SupersedingIsHighest(front, id, runtime);
      assert journal == front + [Last(journal)];
    }
  }

  // ------------------------------------------------------------------------
  // The system
  // ------------------------------------------------------------------------

  /** What a Host's pass holds in memory between two durable operations. */
  datatype Memory =
    | Idle
    | Saw(record: Record)
    | Holding(revision: nat)                    // a claimed record, at this revision
    | MayAppend(revision: nat)                  // its own applying record, about to append the prefix
    | MayDrive(revision: nat)                   // the prefix is committed
    | Driven(revision: nat)
    | MayComplete(revision: nat, effectSeq: nat)
    | MayReject(revision: nat)

  datatype State = State(
    record: Record,
    entered: bool, // the record has been in applying
    effect: Option<nat>,
    journal: seq<Entry>,
    clock: Instant,
    hosts: map<nat, Memory>,
    maxEpoch: nat,
    drives: seq<nat>)

  datatype Action =
    | Tick(now: Instant)
    | ReconcilerRejects
    | Attach(host: nat)
    | OpenStream(host: nat)
    | Crash(host: nat)
    | RuntimeAppends(epoch: nat)
    | OtherPrefix(epoch: nat, id: CommandId, runtime: RuntimeId)
    | Read(host: nat)
    | Decide(host: nat, now: Instant)
    | ClaimIt(host: nat, revision: nat, expires: Instant, acked: bool)
    | BeginApplying(host: nat, expires: Instant, acked: bool)
    | AppendPrefix(host: nat, acked: bool)
    | DriveRuntime(host: nat)
    | Confirm(host: nat)
    | CompleteIt(host: nat)
    | RejectIt(host: nat)
    | Forgo(host: nat)

  function TheWalk(s: State): Walk { Walked(s.journal, s.record.id, s.record.runtime) }

  /** The journal admits one writer: the one that opened it last. */
  predicate Writer(s: State, epoch: nat) { 0 < epoch == TheWalk(s).superseding }

  predicate Claimable(r: Record, host: nat, clock: Instant) {
    && clock < r.deadline
    && (r.state == Pending || (r.state == Claimed &&
        (r.claimEpoch < host || (r.claimEpoch == host && r.claimExpires <= clock))))
  }

  predicate Has(s: State, host: nat) { host in s.hosts }

  predicate Enabled(s: State, a: Action) {
    match a
    case Tick(now) => s.clock <= now
    case ReconcilerRejects => s.record.state == Pending || s.record.state == Claimed
    case Attach(host) => s.maxEpoch < host
    case OpenStream(host) => Has(s, host) && TheWalk(s).superseding < host
    case Crash(host) => Has(s, host)
    case RuntimeAppends(epoch) => Writer(s, epoch)
    case OtherPrefix(epoch, id, _) => Writer(s, epoch) && id != s.record.id
    case Read(host) => Has(s, host) && !Terminal(s.record.state)
    case Decide(host, _) => Has(s, host) && s.hosts[host].Saw?
    case ClaimIt(host, revision, _, _) =>
      Has(s, host) && s.record.revision == revision && Claimable(s.record, host, s.clock)
    case BeginApplying(host, _, _) =>
      Has(s, host) && s.hosts[host].Holding? && s.hosts[host].revision == s.record.revision &&
      s.record.state == Claimed && s.record.claimEpoch == host && s.clock < s.record.claimExpires
    case AppendPrefix(host, _) => Has(s, host) && s.hosts[host].MayAppend? && Writer(s, host)
    case DriveRuntime(host) => Has(s, host) && s.hosts[host].MayDrive?
    case Confirm(host) => Has(s, host) && s.hosts[host].Driven?
    case CompleteIt(host) =>
      Has(s, host) && s.hosts[host].MayComplete? && s.hosts[host].revision == s.record.revision &&
          s.record.state == Applying
    case RejectIt(host) =>
      Has(s, host) && (s.hosts[host].Holding? || s.hosts[host].MayReject?) &&
      s.hosts[host].revision == s.record.revision && !Terminal(s.record.state)
    case Forgo(host) => Has(s, host)
  }

  function Remember(s: State, host: nat, m: Memory): State { s.(hosts := s.hosts[host := m]) }

  function Stamped(r: Record): Record { r.(revision := r.revision + 1) }

  /** What a decision lets its Host do next; a new claim needs nothing remembered. */
  function Licence(d: Decision, r: Record, a: Application): Memory {
    match d
    case Refuse(_) => Idle
    case Do(ClaimFirst) => Idle
    case Do(ApplyUnderHeldClaim) => Holding(r.revision)
    case Do(DriveApplyingRecord) => MayAppend(r.revision)
    case Do(Complete) => MayComplete(r.revision, a.effectSeq)
    case Do(RejectAbandoned) => MayReject(r.revision)
  }

  function Apply(s: State, a: Action): State
    requires Enabled(s, a)
  {
    match a
    case Tick(now) => s.(clock := now)
    case ReconcilerRejects => s.(record := Stamped(s.record.(state := Rejected)))
    case Attach(host) => Remember(s, host, Idle).(maxEpoch := host)
    case OpenStream(host) => s.(journal := s.journal + [OpeningFence(host)])
    case Crash(host) => s.(hosts := s.hosts - {host})
    case RuntimeAppends(epoch) => s.(journal := s.journal + [Public(epoch)])
    case OtherPrefix(epoch, id, runtime) => s.(journal := s.journal + [Prefix(id, runtime, epoch)])
    case Read(host) => Remember(s, host, Saw(s.record))
    case Decide(host, now) =>
      var r := s.hosts[host].record;
      var found := FindApplication(s.journal, r);
      Remember(s, host, Licence(Plan(r, found, host, now), r, found))
    case ClaimIt(host, _, expires, acked) =>
      Remember(s, host, if acked then Holding(s.record.revision + 1) else Idle).(
        record := Stamped(s.record.(state := Claimed, claimEpoch := host, claimExpires := expires)))
    case BeginApplying(host, expires, acked) =>
      Remember(s, host, if acked then MayAppend(s.record.revision + 1) else Idle).(
        record := Stamped(s.record.(state := Applying, claimExpires := expires)), entered := true)
    case AppendPrefix(host, acked) =>
      Remember(s, host, if acked then MayDrive(s.hosts[host].revision) else Idle).(
        journal := s.journal + [Prefix(s.record.id, s.record.runtime, host)])
    case DriveRuntime(host) =>
      Remember(s, host, Driven(s.hosts[host].revision)).(drives := s.drives + [host])
    case Confirm(host) =>
      var w := TheWalk(s);
      Remember(s, host, if w.outcome.Committed? then MayComplete(s.hosts[host].revision, w.effectSeq) else Idle)
    case CompleteIt(host) =>
      Remember(s, host, Idle).(
        record := Stamped(s.record.(state := Applied)), effect := Some(s.hosts[host].effectSeq))
    case RejectIt(host) => Remember(s, host, Idle).(record := Stamped(s.record.(state := Rejected)))
    case Forgo(host) => Remember(s, host, Idle)
  }

  predicate Initial(s: State) {
    && s.record.state == Pending && s.record.revision == 1 && s.record.claimEpoch == 0 && s.record.claimExpires == 0
    && !s.entered && s.effect == None && s.journal == [] && s.hosts == map[] && s.maxEpoch == 0 && s.drives == []
  }

  predicate Taken(s: State, a: Action, t: State) { Enabled(s, a) && t == Apply(s, a) }

  datatype History = History(actions: seq<Action>, states: seq<State>)

  predicate Legal(h: History) {
    && |h.states| == |h.actions| + 1 && Initial(h.states[0])
    && forall i {:trigger h.actions[i]} :: 0 <= i < |h.actions| ==> Taken(h.states[i], h.actions[i], h.states[i + 1])
  }

  function Now(h: History): State
    requires Legal(h)
  {
    h.states[|h.actions|]
  }

  predicate Extends(h: History, k: History) { h.actions <= k.actions && h.states <= k.states }

  function Extended(h: History, a: Action): (k: History)
    requires Legal(h) && Enabled(Now(h), a)
    ensures Legal(k) && Extends(h, k) && Now(k) == Apply(Now(h), a)
  {
    var k := History(h.actions + [a], h.states + [Apply(Now(h), a)]);
    assert forall i :: 0 <= i < |h.actions| ==> k.actions[i] == h.actions[i] && k.states[i + 1] == h.states[i + 1];
    k
  }

  // ------------------------------------------------------------------------
  // The invariant
  // ------------------------------------------------------------------------

  /** No effect has committed and none can: whoever could have committed it is fenced. */
  predicate Barren(w: Walk, claimEpoch: nat) {
    (w.outcome == Absent || w.outcome == Abandoned) && claimEpoch < w.superseding
  }

  ghost predicate RecordOk(s: State) {
    var r := s.record;
    && ClaimsOk(r) && 1 <= r.revision && r.claimEpoch <= s.maxEpoch
    && (s.entered ==> r.state == Applying || Terminal(r.state))
    && (r.state == Applying || r.state == Applied ==> s.entered)
    && (r.state == Claimed ==> r.claimEpoch > 0)
  }

  ghost predicate JournalOk(s: State) {
    var w := TheWalk(s);
    && w.superseding <= s.maxEpoch && w.prefixes <= 1
    && (w.prefixes == 0 ==> w.outcome == Absent && !w.unanswered && s.drives == [])
    && (w.prefixes == 1 ==>
          && s.entered && w.prefixEpoch == s.record.claimEpoch && w.runtime == s.record.runtime
          && w.prefixEpoch <= w.superseding
          && (w.outcome == Committed || w.outcome == Abandoned || w.outcome == Unresolved))
    && (w.unanswered ==> w.prefixes == 1 && w.outcome == Unresolved && w.prefixEpoch == w.superseding)
    && (w.outcome == Committed ==> w.effectEpoch == w.prefixEpoch)
    && (w.outcome == Abandoned ==> w.prefixEpoch < w.superseding)
  }

  ghost predicate SettledOk(s: State) {
    && (s.record.state == Rejected && s.entered ==> Barren(TheWalk(s), s.record.claimEpoch))
    && (s.record.state == Applied ==> TheWalk(s).outcome == Committed && s.effect == Some(TheWalk(s).effectSeq))
  }

  ghost predicate DrivesOk(s: State) {
    |s.drives| <= 1 && (s.drives != [] ==> s.drives[0] == s.record.claimEpoch)
  }

  ghost predicate MemoryOk(s: State, host: nat, m: Memory) {
    && 0 < host <= s.maxEpoch
    && match m
       case Idle => true
       case Saw(r) =>
         && r.id == s.record.id && r.runtime == s.record.runtime && ClaimsOk(r) && !Terminal(r.state)
         && r.revision <= s.record.revision && (r.revision == s.record.revision ==> r == s.record)
         && (r.state == Applying ==> s.entered && r.claimEpoch == s.record.claimEpoch)
         && (r.state == Claimed ==> r.claimEpoch > 0)
       case Holding(v) =>
         v <= s.record.revision && (v == s.record.revision ==> s.record.state == Claimed)
       case MayAppend(_) => s.entered && s.record.claimEpoch == host && TheWalk(s).prefixes == 0
       case MayDrive(_) => s.entered && s.record.claimEpoch == host && TheWalk(s).prefixes == 1 && s.drives == []
       case Driven(_) => true
       case MayComplete(_, effectSeq) => TheWalk(s).outcome == Committed && TheWalk(s).effectSeq == effectSeq
       case MayReject(v) =>
         v <= s.record.revision &&
         (v == s.record.revision ==> s.record.state == Applying && Barren(TheWalk(s), s.record.claimEpoch))
  }

  ghost predicate Inv(s: State) {
    && RecordOk(s) && JournalOk(s) && SettledOk(s) && DrivesOk(s)
    && (forall h :: h in s.hosts ==> MemoryOk(s, h, s.hosts[h]))
  }

  // ------------------------------------------------------------------------
  // What every step keeps
  // ------------------------------------------------------------------------

  /** What no step undoes. */
  ghost predicate Grows(s: State, t: State) {
    && t.record.id == s.record.id && t.record.runtime == s.record.runtime
    && s.record.revision <= t.record.revision && (s.record.revision == t.record.revision ==> s.record == t.record)
    && (s.entered ==> t.entered && t.record.claimEpoch == s.record.claimEpoch)
    && (!s.entered && t.entered ==> !Terminal(s.record.state))
    && (Terminal(s.record.state) ==> t.record == s.record && t.effect == s.effect && t.entered == s.entered)
    && s.journal <= t.journal && s.drives <= t.drives && s.maxEpoch <= t.maxEpoch
  }

  lemma StepGrows(s: State, a: Action)
    requires RecordOk(s) && Enabled(s, a)
    ensures Grows(s, Apply(s, a))
  {
  }

  /** The walk after a step is the walk before it, advanced by what was appended. */
  lemma StepWalk(s: State, a: Action)
    requires Enabled(s, a)
    ensures var t := Apply(s, a); var w := TheWalk(s);
            TheWalk(t) == match a
              case OpenStream(host) => Advance(w, s.record.id, s.record.runtime, OpeningFence(host), |s.journal| + 1)
              case RuntimeAppends(epoch) => Advance(w, s.record.id, s.record.runtime, Public(epoch), |s.journal| + 1)
              case OtherPrefix(epoch, id, rt) => Advance(w, s.record.id, s.record.runtime, Prefix(id, rt, epoch),
                  |s.journal| + 1)
              case AppendPrefix(host, _) =>
                Advance(w, s.record.id, s.record.runtime, Prefix(s.record.id, s.record.runtime, host), |s.journal| + 1)
              case _ => w
  {
    var t := Apply(s, a);
    if t.journal != s.journal {
      WalkedAppend(s.journal, s.record.id, s.record.runtime, Last(t.journal));
    }
  }

  /** Decided evidence stays decided: an effect stays committed, and a barren journal stays barren. */
  lemma StepEvidence(s: State, a: Action)
    requires Inv(s) && Enabled(s, a)
    ensures var w, v := TheWalk(s), TheWalk(Apply(s, a));
            && w.superseding <= v.superseding && w.prefixes <= v.prefixes
            && (w.outcome == Committed ==> v.outcome == Committed && v.effectSeq == w.effectSeq)
            && (s.entered && Barren(w, s.record.claimEpoch) ==> Barren(v, s.record.claimEpoch))
            && (!a.AppendPrefix? ==> v.prefixes == w.prefixes)
  {
    StepWalk(s, a);
    if a.AppendPrefix? { assert MemoryOk(s, a.host, s.hosts[a.host]); }
  }

  lemma StepJournal(s: State, a: Action)
    requires RecordOk(s) && JournalOk(s) && Enabled(s, a)
    requires a.AppendPrefix? || a.DriveRuntime? || a.OpenStream? ==> MemoryOk(s, a.host, s.hosts[a.host])
    ensures JournalOk(Apply(s, a))
  {
    StepWalk(s, a);
    StepGrows(s, a);
  }

  lemma StepDrives(s: State, a: Action)
    requires RecordOk(s) && JournalOk(s) && DrivesOk(s) && Enabled(s, a)
    requires a.DriveRuntime? ==> MemoryOk(s, a.host, s.hosts[a.host])
    ensures DrivesOk(Apply(s, a))
  {
    StepGrows(s, a);
  }

  lemma StepRecord(s: State, a: Action)
    requires Inv(s) && Enabled(s, a)
    ensures RecordOk(Apply(s, a))
  {
    if a.ClaimIt? { assert MemoryOk(s, a.host, s.hosts[a.host]); }
  }

  lemma StepSettled(s: State, a: Action)
    requires Inv(s) && Enabled(s, a)
    ensures SettledOk(Apply(s, a))
  {
    StepEvidence(s, a);
    StepGrows(s, a);
    if a.CompleteIt? || a.RejectIt? { assert MemoryOk(s, a.host, s.hosts[a.host]); }
  }

  lemma BystanderMemory(s: State, a: Action, h: nat, m: Memory)
    requires Inv(s) && Enabled(s, a) && MemoryOk(s, h, m)
    requires m.MayAppend? ==> !(a.AppendPrefix? && a.host == h)
    requires m.MayDrive? ==> !(a.DriveRuntime? && a.host == h)
    ensures MemoryOk(Apply(s, a), h, m)
  {
    StepEvidence(s, a);
    StepGrows(s, a);
    if a.AppendPrefix? || a.DriveRuntime? { assert MemoryOk(s, a.host, s.hosts[a.host]); }
  }

  /** What a Host remembers is about the record, its history and the walk of the journal. */
  lemma MemoryOf(s: State, t: State, h: nat, m: Memory)
    requires MemoryOk(s, h, m) && t.record == s.record && t.entered == s.entered && t.journal == s.journal
    requires t.drives == s.drives && t.maxEpoch == s.maxEpoch
    ensures MemoryOk(t, h, m)
  {
  }

  /** A step that writes neither the record nor the journal. */
  lemma ReaderMemory(s: State, a: Action, h: nat)
    requires Inv(s) && Enabled(s, a) && h in s.hosts && (a.Read? || a.Decide? || a.Confirm? || a.Forgo?) && a.host == h
    ensures MemoryOk(Apply(s, a), h, Apply(s, a).hosts[h])
  {
    assert MemoryOk(s, h, s.hosts[h]);
    if a.Decide? { DecidedMemory(s, h, a.now); }
    MemoryOf(s, Apply(s, a), h, Apply(s, a).hosts[h]);
  }

  lemma WriterMemory(s: State, a: Action, h: nat)
    requires Inv(s) && Enabled(s, a) && h in s.hosts && h in Apply(s, a).hosts && Apply(s, a).hosts[h] != s.hosts[h]
    requires !(a.Read? || a.Decide? || a.Confirm? || a.Forgo?)
    ensures MemoryOk(Apply(s, a), h, Apply(s, a).hosts[h])
  {
    assert MemoryOk(s, h, s.hosts[h]);
    StepWalk(s, a);
  }

  lemma ActorMemory(s: State, a: Action, h: nat)
    requires Inv(s) && Enabled(s, a) && h in Apply(s, a).hosts
    requires h !in s.hosts || Apply(s, a).hosts[h] != s.hosts[h]
    ensures MemoryOk(Apply(s, a), h, Apply(s, a).hosts[h])
  {
    if h in s.hosts {
      if a.Read? || a.Decide? || a.Confirm? || a.Forgo? { ReaderMemory(s, a, h); } else { WriterMemory(s, a, h); }
    }
  }

  /** A decision on a possibly stale record and the journal as it stands now licenses only what is safe. */
  lemma DecidedMemory(s: State, h: nat, now: Instant)
    requires Inv(s) && h in s.hosts && s.hosts[h].Saw?
    ensures var r := s.hosts[h].record; var found := FindApplication(s.journal, r);
            MemoryOk(s, h, Licence(Plan(r, found, h, now), r, found))
  {
    assert MemoryOk(s, h, s.hosts[h]);
    var r := s.hosts[h].record;
    var found := FindApplication(s.journal, r);
    RejectedExactlyWhenProved(r, found, h, now);
    RedrivenExactlyWhenOwn(r, found, h, now);
  }

  lemma StepInv(s: State, a: Action)
    requires Inv(s) && Enabled(s, a)
    ensures Inv(Apply(s, a))
  {
    var t := Apply(s, a);
    StepRecord(s, a);
    if a.AppendPrefix? || a.DriveRuntime? || a.OpenStream? { assert MemoryOk(s, a.host, s.hosts[a.host]); }
    StepJournal(s, a);
    StepDrives(s, a);
    StepSettled(s, a);
    forall h | h in t.hosts ensures MemoryOk(t, h, t.hosts[h]) {
      if h in s.hosts && t.hosts[h] == s.hosts[h] {
        BystanderMemory(s, a, h, s.hosts[h]);
      } else {
        ActorMemory(s, a, h);
      }
    }
  }

  // ------------------------------------------------------------------------
  // Theorems
  // ------------------------------------------------------------------------

  lemma {:induction false} ReachableInv(h: History, i: nat)
    requires Legal(h) && i <= |h.actions|
    ensures Inv(h.states[i])
  {
    if i > 0 {
      ReachableInv(h, i - 1);
      assert Taken(h.states[i - 1], h.actions[i - 1], h.states[i]);
      StepInv(h.states[i - 1], h.actions[i - 1]);
    }
  }

  lemma {:induction false} LaterGrows(h: History, i: nat, j: nat)
    requires Legal(h) && i <= j <= |h.actions|
    ensures Grows(h.states[i], h.states[j])
    decreases j
  {
    if i < j {
      LaterGrows(h, i, j - 1);
      ReachableInv(h, j - 1);
      assert Taken(h.states[j - 1], h.actions[j - 1], h.states[j]);
      StepGrows(h.states[j - 1], h.actions[j - 1]);
    }
  }

  lemma ExtensionGrows(h: History, k: History)
    requires Legal(h) && Legal(k) && Extends(h, k)
    ensures Grows(Now(h), Now(k))
  {
    LaterGrows(k, |h.actions|, |k.actions|);
    assert k.states[|h.actions|] == h.states[|h.actions|];
  }

  /** A command once rejected has no committed effect, then or in any later state. */
  lemma RejectedNeverTakesEffect(h: History, i: nat, j: nat)
    requires Legal(h) && i <= j <= |h.actions| && h.states[i].record.state == Rejected
    ensures h.states[j].record.state == Rejected
    ensures FindApplication(h.states[j].journal, h.states[j].record).ProvesNoEffect()
  {
    LaterGrows(h, i, j);
    ReachableInv(h, j);
  }

  /** An applied command names the public event right after its own prefix, both appended under its claim's epoch. */
  lemma AppliedNamesItsEffect(h: History, i: nat)
    requires Legal(h) && i <= |h.actions| && h.states[i].record.state == Applied
    ensures var s := h.states[i];
            && s.effect.Some? && 2 <= s.effect.value <= |s.journal|
            && s.journal[s.effect.value - 2] == Prefix(s.record.id, s.record.runtime, s.record.claimEpoch)
            && s.journal[s.effect.value - 1] == Public(s.record.claimEpoch)
  {
    ReachableInv(h, i);
    var s := h.states[i];
    var k := LatestPrefix(s.journal, s.record.id, s.record.runtime);
    WalkRuntime(s.journal, s.record.id, s.record.runtime, k);
    WalkMeans(s.journal, s.record.id, s.record.runtime, k);
  }

  lemma ClaimStep(s: State, a: Action)
    requires Enabled(s, a) && Apply(s, a).record.state == Claimed
    ensures var r := Apply(s, a).record;
            if a.ClaimIt? then r.claimEpoch == a.host && r.claimExpires == a.expires else s.record == r
  {
  }

  /** A claimed record is claimed by the last Host to claim it, for as long as that asked for. */
  lemma {:induction false} ClaimOrigin(h: History, j: nat) returns (i: nat)
    requires Legal(h) && j <= |h.actions| && h.states[j].record.state == Claimed
    ensures i < j && h.actions[i].ClaimIt? && h.states[i].clock < h.states[i].record.deadline
    ensures h.actions[i].host == h.states[j].record.claimEpoch &&
        h.actions[i].expires == h.states[j].record.claimExpires
    ensures forall k :: i < k < j ==> !h.actions[k].ClaimIt?
    decreases j
  {
    if j > 0 {
      assert Taken(h.states[j - 1], h.actions[j - 1], h.states[j]);
      ClaimStep(h.states[j - 1], h.actions[j - 1]);
      if h.actions[j - 1].ClaimIt? { i := j - 1; } else { i := ClaimOrigin(h, j - 1); }
    }
  }

  /**
   Applying is entered only under the entering Host's own claim, taken before the deadline, still live and taken over by
   nobody since; and a claim is taken over only by a later epoch, or by its own once it has lapsed.
   */
  lemma EnteredUnderOwnClaim(h: History, j: nat) returns (i: nat)
    requires Legal(h) && j < |h.actions|
    requires h.actions[j].BeginApplying? || (h.actions[j].ClaimIt? && h.states[j].record.state == Claimed)
    ensures i < j && h.actions[i].ClaimIt? && h.states[i].clock < h.states[i].record.deadline
    ensures forall k :: i < k < j ==> !h.actions[k].ClaimIt?
    ensures h.actions[j].BeginApplying? ==>
              h.actions[i].host == h.actions[j].host && h.states[j].clock < h.actions[i].expires
    ensures h.actions[j].ClaimIt? ==>
              || h.actions[i].host < h.actions[j].host
              || (h.actions[i].host == h.actions[j].host && h.actions[i].expires <= h.states[j].clock)
  {
    assert Taken(h.states[j], h.actions[j], h.states[j + 1]);
    i := ClaimOrigin(h, j);
  }

  /** The runtime is driven for the command at most once, by the Host its claim names, after the one prefix. */
  lemma DrivenOnceAfterThePrefix(h: History, i: nat)
    requires Legal(h) && i <= |h.actions|
    ensures |h.states[i].drives| <= 1 && TheWalk(h.states[i]).prefixes <= 1
    ensures h.states[i].drives != [] ==>
              h.states[i].drives == [h.states[i].record.claimEpoch] && TheWalk(h.states[i]).prefixes == 1
  {
    ReachableInv(h, i);
  }

  /** At every decision any Host ever takes, the deleted guards would have decided the same. */
  lemma GuardsNeverMatter(h: History, i: nat)
    requires Legal(h) && i < |h.actions| && h.actions[i].Decide?
    ensures var host := h.actions[i].host; var s := h.states[i];
            && host in s.hosts && s.hosts[host].Saw?
            && var r := s.hosts[host].record; var found := FindApplication(s.journal, r);
               GuardedPlan(r, found, host, h.actions[i].now) == Some(Plan(r, found, host, h.actions[i].now))
  {
    assert Taken(h.states[i], h.actions[i], h.states[i + 1]);
    ReachableInv(h, i);
    var s := h.states[i];
    assert MemoryOk(s, h.actions[i].host, s.hosts[h.actions[i].host]);
    ClaimGuardsAreImplied(s.hosts[h.actions[i].host].record);
  }

  // ------------------------------------------------------------------------
  // Who is fenced out
  // ------------------------------------------------------------------------

  /** The action appends to the journal under this epoch. */
  predicate AppendsUnder(a: Action, epoch: nat) {
    match a
    case RuntimeAppends(e) => e == epoch
    case OtherPrefix(e, _, _) => e == epoch
    case AppendPrefix(host, _) => host == epoch
    case _ => false
  }

  lemma StepSuperseding(s: State, a: Action)
    requires Enabled(s, a)
    ensures TheWalk(s).superseding <= TheWalk(Apply(s, a)).superseding
    ensures forall e :: AppendsUnder(a, e) ==> e == TheWalk(s).superseding
  {
    StepWalk(s, a);
  }

  lemma {:induction false} LaterSuperseding(h: History, i: nat, j: nat)
    requires Legal(h) && i <= j <= |h.actions|
    ensures TheWalk(h.states[i]).superseding <= TheWalk(h.states[j]).superseding
    decreases j
  {
    if i < j {
      LaterSuperseding(h, i, j - 1);
      assert Taken(h.states[j - 1], h.actions[j - 1], h.states[j]);
      StepSuperseding(h.states[j - 1], h.actions[j - 1]);
    }
  }

  /** The run continues, and something is appended under this epoch. */
  ghost predicate GoesOnToAppend(h: History, k: History, epoch: nat) {
    Legal(k) && Extends(h, k) && exists j :: |h.actions| <= j < |k.actions| && AppendsUnder(k.actions[j], epoch)
  }

  lemma FencedNeverAppends(h: History, k: History, epoch: nat)
    requires Legal(h) && GoesOnToAppend(h, k, epoch)
    ensures TheWalk(Now(h)).superseding <= epoch
  {
    var j :| |h.actions| <= j < |k.actions| && AppendsUnder(k.actions[j], epoch);
    assert k.states[|h.actions|] == Now(h);
    LaterSuperseding(k, |h.actions|, j);
    assert Taken(k.states[j], k.actions[j], k.states[j + 1]);
    StepSuperseding(k.states[j], k.actions[j]);
  }

  lemma UnfencedMayAppend(h: History, epoch: nat) returns (k: History)
    requires Legal(h) && epoch in Now(h).hosts && TheWalk(Now(h)).superseding <= epoch
    ensures GoesOnToAppend(h, k, epoch)
  {
    ReachableInv(h, |h.actions|);
    assert MemoryOk(Now(h), epoch, Now(h).hosts[epoch]);
    k := h;
    if TheWalk(Now(h)).superseding < epoch {
      StepWalk(Now(h), OpenStream(epoch));
      k := Extended(h, OpenStream(epoch));
    }
    var n := |k.actions|;
    k := Extended(k, RuntimeAppends(epoch));
    assert AppendsUnder(k.actions[n], epoch);
  }

  /**
   A living Host is fenced out of the journal, in every continuation of the run, exactly when its epoch is
   strictly below the highest opening fence: the writer at that fence is not.
   */
  lemma FencedExactlyBelow(h: History, epoch: nat)
    requires Legal(h) && epoch in Now(h).hosts
    ensures (forall k :: !GoesOnToAppend(h, k, epoch)) <==>
        exists e: nat :: OpeningFence(e) in Now(h).journal && epoch < e
  {
    SupersedingIsHighest(Now(h).journal, Now(h).record.id, Now(h).record.runtime);
    if TheWalk(Now(h)).superseding <= epoch {
      var k := UnfencedMayAppend(h, epoch);
    } else {
      forall k ensures !GoesOnToAppend(h, k, epoch) {
        if GoesOnToAppend(h, k, epoch) { FencedNeverAppends(h, k, epoch); }
      }
    }
  }

  /** The writer whose own fence is the highest goes on appending. */
  lemma WriterAtTheFenceAppends() returns (h: History)
    ensures Legal(h) && |h.actions| == 3 && TheWalk(h.states[2]).superseding == 1
    ensures AppendsUnder(h.actions[2], 1) && Now(h).journal == [OpeningFence(1), Public(1)]
  {
    var r := Record(0, 1, 1, Input, Pending, 1, 1, 0, 0);
    h := History([], [State(r, false, None, [], 0, map[], 0, [])]);
    h := Extended(h, Attach(1));
    StepWalk(Now(h), OpenStream(1));
    h := Extended(h, OpenStream(1));
    h := Extended(h, RuntimeAppends(1));
  }
}
