/** What every history of the disposition protocol keeps. */
module ProtocolSafety {
  import opened Base
  import opened Protocol

  // ------------------------------------------------------------------------
  // The invariant, in five parts
  // ------------------------------------------------------------------------

  /** A record carries an attempt exactly when it is applying or was settled from one. */
  ghost predicate RecordsOk(s: State) {
    forall c :: c in s.records ==> RecordOk(s, s.records[c])
  }

  ghost predicate RecordOk(s: State, r: Record) {
    && (r.state == Pending || r.state == Claimed ==> r.attempt.None?)
    && (r.state == Applying ==> r.attempt.Some?)
    && (r.attempt.Some? ==> r.attempt.value.journalEpoch <= s.journalEpoch)
    && 0 < r.order <= s.maxOrder
  }

  /** The recorded attempt of a command names this Host, this identity and this grant. */
  ghost predicate Authorized(s: State, host: nat, cmd: CommandId, id: AttemptId, grant: nat) {
    cmd in s.records && s.records[cmd].attempt == Some(Attempt(id, grant, host))
  }

  ghost predicate Driven(s: State, cmd: CommandId) {
    exists i :: 0 <= i < |s.drives| && s.drives[i].cmd == cmd
  }

  /** A permit to drive is backed by the recorded attempt, which has not been driven. */
  ghost predicate HostsOk(s: State) {
    forall h :: h in s.hosts ==> HostOk(s, h)
  }

  ghost predicate HostOk(s: State, h: nat)
    requires h in s.hosts
  {
    && h <= s.maxResidency
    && (s.hosts[h].grant.Some? ==> s.hosts[h].grant.value <= s.journalEpoch)
    && (s.hosts[h].permit.MayDrive? ==>
          s.hosts[h].grant.Some? &&
          Authorized(s, h, s.hosts[h].permit.cmd, s.hosts[h].permit.attempt, s.hosts[h].grant.value) &&
          !Driven(s, s.hosts[h].permit.cmd))
  }

  /** Every drive is of the recorded attempt, by its recorded Host, and no command is driven twice. */
  ghost predicate DrivesOk(s: State) {
    && (forall i :: 0 <= i < |s.drives| ==>
          Authorized(s, s.drives[i].host, s.drives[i].cmd, s.drives[i].attempt, s.drives[i].grant))
    && (forall i, j :: 0 <= i < j < |s.drives| ==> s.drives[i].cmd != s.drives[j].cmd)
  }

  ghost predicate Recorded(s: State, cmd: CommandId, id: AttemptId, grant: nat) {
    && cmd in s.records && s.records[cmd].attempt.Some?
    && s.records[cmd].attempt.value.id == id && s.records[cmd].attempt.value.journalEpoch == grant
  }

  ghost predicate EntryOk(s: State, e: Entry) {
    match e
    case Effect(c, id, g) => Recorded(s, c, id, g) && Driven(s, c)
    case Disposed(c, id, g, _) => Recorded(s, c, id, g) && Driven(s, c)
    case Closed(c, id, g, author) => Recorded(s, c, id, g) && g < author <= s.journalEpoch
  }

  /**
   Every entry is about a recorded attempt, a closed attempt has neither an effect nor a
   disposition, and an attempt is disposed at most once.
   */
  ghost predicate JournalOk(s: State) {
    && (forall i :: 0 <= i < |s.journal| ==> EntryOk(s, s.journal[i]))
    && (forall i, j | 0 <= i < |s.journal| && 0 <= j < |s.journal| && s.journal[i].Closed? ::
          s.journal[j].cmd == s.journal[i].cmd ==> s.journal[j].Closed?)
    && (forall i, j | 0 <= i < j < |s.journal| && s.journal[i].Disposed? && s.journal[j].Disposed? ::
          s.journal[i].cmd != s.journal[j].cmd)
  }

  /** A command settled after its attempt is settled as its evidence says. */
  ghost predicate SettledOk(s: State) {
    forall c :: c in s.records && Terminal(s.records[c].state) && s.records[c].attempt.Some? ==>
      HasEvidence(s.journal, c, s.records[c].attempt.value, s.records[c].state)
  }

  ghost predicate Inv(s: State) {
    RecordsOk(s) && HostsOk(s) && DrivesOk(s) && JournalOk(s) && SettledOk(s)
  }

  // ------------------------------------------------------------------------
  // Attempts are immutable, which frames everything else
  // ------------------------------------------------------------------------

  /** Across one step: records stay, attempts once written stay, terminal states stay, logs only grow. */
  ghost predicate Grows(s: State, t: State) {
    && s.journal <= t.journal && s.drives <= t.drives
    && s.journalEpoch <= t.journalEpoch && s.maxOrder <= t.maxOrder && s.maxResidency <= t.maxResidency
    && (forall c :: c in s.records ==>
          && c in t.records
          && t.records[c].order == s.records[c].order
          && t.records[c].kind == s.records[c].kind
          && (s.records[c].attempt.Some? ==> t.records[c].attempt == s.records[c].attempt)
          && (Terminal(s.records[c].state) ==> t.records[c] == s.records[c]))
    && (forall c :: c in t.records && c !in s.records ==> s.maxOrder < t.records[c].order)
  }

  /**
   A record keeps its order and its kind; every change moves its revision on; one with an attempt does not change until
   it is settled, nor after.
   */
  ghost predicate Kept(s: State, t: State) {
    forall c :: c in s.records ==> c in t.records && RecordKept(s.records[c], t.records[c])
  }

  ghost predicate RecordKept(r: Record, q: Record) {
    && q.order == r.order && q.kind == r.kind
    && r.revision <= q.revision && (q.revision == r.revision ==> q == r)
    && (r.attempt.Some? ==> q == r || (Terminal(q.state) && q.attempt == r.attempt))
    && (Terminal(r.state) ==> q == r)
  }

  /** One record across one step. */
  lemma RecordStep(s: State, a: Action, c: CommandId)
    requires Enabled(s, a) && c in s.records && RecordOk(s, s.records[c])
    ensures c in Apply(s, a).records && RecordKept(s.records[c], Apply(s, a).records[c])
  {
  }

  lemma StepKept(s: State, a: Action)
    requires RecordsOk(s) && Enabled(s, a)
    ensures Kept(s, Apply(s, a))
  {
    forall c | c in s.records ensures c in Apply(s, a).records && RecordKept(s.records[c], Apply(s, a).records[c]) {
      RecordStep(s, a, c);
    }
  }

  lemma StepGrows(s: State, a: Action)
    requires RecordsOk(s) && Enabled(s, a)
    ensures Grows(s, Apply(s, a))
  {
    StepKept(s, a);
  }

  lemma GrowsTrans(s: State, t: State, u: State)
    requires Grows(s, t) && Grows(t, u)
    ensures Grows(s, u)
  {
  }

  lemma DrivenGrows(s: State, t: State, cmd: CommandId)
    requires s.drives <= t.drives
    ensures Driven(s, cmd) ==> Driven(t, cmd)
  {
    if Driven(s, cmd) {
      var i :| 0 <= i < |s.drives| && s.drives[i].cmd == cmd;
      assert t.drives[i] == s.drives[i];
    }
  }

  lemma StepRecords(s: State, a: Action)
    requires Inv(s) && Enabled(s, a)
    ensures RecordsOk(Apply(s, a))
  {
    var t := Apply(s, a);
    forall c | c in t.records ensures RecordOk(t, t.records[c]) {
      if c in s.records { assert RecordOk(s, s.records[c]); }
      if a.Begin? { assert HostOk(s, a.host); }
    }
  }

  /** A command that is driven by a step is the one whose permit the step spends. */
  lemma StepDriven(s: State, a: Action, cmd: CommandId)
    requires Enabled(s, a) && !Driven(s, cmd)
    ensures Driven(Apply(s, a), cmd) ==> a.DriveRuntime? && s.hosts[a.host].permit.cmd == cmd
  {
  }

  /** A Host that keeps its permit keeps what backs it. */
  lemma BystanderOk(s: State, a: Action, h: nat)
    requires Enabled(s, a) && h in s.hosts && HostOk(s, h) && h in Apply(s, a).hosts
    requires Apply(s, a).hosts[h].permit == s.hosts[h].permit && (a.DriveRuntime? ==> a.host != h && HostOk(s, a.host))
    requires s.hosts[h].permit.MayDrive? ==> RecordOk(s, s.records[s.hosts[h].permit.cmd])
    ensures HostOk(Apply(s, a), h)
  {
    var p := s.hosts[h].permit;
    if p.MayDrive? {
      RecordStep(s, a, p.cmd);
      StepDriven(s, a, p.cmd);
    }
  }

  lemma MoverOk(s: State, a: Action, h: nat)
    requires Inv(s) && Enabled(s, a) && h in Apply(s, a).hosts
    requires h !in s.hosts || Apply(s, a).hosts[h].permit != s.hosts[h].permit
    ensures HostOk(Apply(s, a), h)
  {
    if h in s.hosts { assert HostOk(s, h); }
    if a.Begin? {
      assert RecordOk(s, s.records[a.cmd]);
      forall i | 0 <= i < |s.drives| ensures s.drives[i].cmd != a.cmd { }
    }
  }

  lemma StepHost(s: State, a: Action, h: nat)
    requires Inv(s) && Enabled(s, a) && h in Apply(s, a).hosts
    ensures HostOk(Apply(s, a), h)
  {
    if h in s.hosts && Apply(s, a).hosts[h].permit == s.hosts[h].permit {
      assert HostOk(s, h) && (a.DriveRuntime? ==> HostOk(s, a.host));
      BystanderOk(s, a, h);
    } else {
      MoverOk(s, a, h);
    }
  }

  lemma StepHosts(s: State, a: Action)
    requires Inv(s) && Enabled(s, a)
    ensures HostsOk(Apply(s, a))
  {
    forall h | h in Apply(s, a).hosts ensures HostOk(Apply(s, a), h) { StepHost(s, a, h); }
  }

  lemma StepDrives(s: State, a: Action)
    requires Inv(s) && Enabled(s, a)
    ensures DrivesOk(Apply(s, a))
  {
    StepGrows(s, a);
    if a.DriveRuntime? { assert HostOk(s, a.host); }
  }

  /** An entry stays about a recorded attempt. */
  lemma EntryStays(s: State, a: Action, e: Entry)
    requires RecordsOk(s) && Enabled(s, a) && EntryOk(s, e)
    ensures EntryOk(Apply(s, a), e)
  {
    RecordStep(s, a, e.cmd);
    StepGrows(s, a);
    DrivenGrows(s, Apply(s, a), e.cmd);
  }

  /** What a step appends is about a recorded attempt, and says nothing a closure forbids. */
  lemma Appends(s: State, a: Action)
    requires Inv(s) && Enabled(s, a) && Apply(s, a).journal != s.journal
    ensures |Apply(s, a).journal| == |s.journal| + 1 && EntryOk(Apply(s, a), Last(Apply(s, a).journal))
    ensures var e := Last(Apply(s, a).journal);
            && (e.Closed? ==> forall i :: 0 <= i < |s.journal| && s.journal[i].cmd == e.cmd ==> s.journal[i].Closed?)
            && (!e.Closed? ==> forall i :: 0 <= i < |s.journal| && s.journal[i].cmd == e.cmd ==> !s.journal[i].Closed?)
            && (e.Disposed? ==> forall i :: 0 <= i < |s.journal| && s.journal[i].Disposed? ==>
                s.journal[i].cmd != e.cmd)
  {
    if a.RuntimeEffect? || a.RuntimeDispose? {
      var d := s.drives[a.drive];
      assert Driven(s, d.cmd);
      // A drive whose grant is current cannot be of a closed attempt: the closer's grant was later.
      forall i | 0 <= i < |s.journal| && s.journal[i].Closed? ensures s.journal[i].cmd != d.cmd {
        assert EntryOk(s, s.journal[i]);
      }
    }
  }

  lemma StepJournal(s: State, a: Action)
    requires Inv(s) && Enabled(s, a)
    ensures JournalOk(Apply(s, a))
  {
    var t := Apply(s, a);
    if t.journal != s.journal { Appends(s, a); }
    forall i | 0 <= i < |t.journal| ensures EntryOk(t, t.journal[i]) {
      if i < |s.journal| { EntryStays(s, a, s.journal[i]); }
    }
  }

  lemma StepSettled(s: State, a: Action)
    requires Inv(s) && Enabled(s, a)
    ensures SettledOk(Apply(s, a))
  {
    var t := Apply(s, a);
    StepGrows(s, a);
    forall c | c in t.records && Terminal(t.records[c].state) && t.records[c].attempt.Some?
      ensures HasEvidence(t.journal, c, t.records[c].attempt.value, t.records[c].state)
    {
      assert c in s.records && RecordOk(s, s.records[c]);
      EvidenceGrows(s.journal, t.journal, c, t.records[c].attempt.value, t.records[c].state);
    }
  }

  lemma EvidenceGrows(j: seq<Entry>, k: seq<Entry>, cmd: CommandId, a: Attempt, v: CommandState)
    requires j <= k
    ensures HasEvidence(j, cmd, a, v) ==> HasEvidence(k, cmd, a, v)
  {
    if HasEvidence(j, cmd, a, v) {
      var i :| 0 <= i < |j| && Supports(j[i], cmd, a, v);
      assert k[i] == j[i];
    }
  }

  lemma StepInv(s: State, a: Action)
    requires Inv(s) && Enabled(s, a)
    ensures Inv(Apply(s, a))
  {
    StepRecords(s, a); StepHosts(s, a); StepDrives(s, a); StepJournal(s, a); StepSettled(s, a);
  }

  /** Every reachable state satisfies the invariant. */
  lemma {:induction false} ReachableInv(h: History, i: nat)
    requires Legal(h) && i <= |h.actions|
    ensures Inv(h.states[i])
  {
    if i > 0 {
      ReachableInv(h, i - 1);
      assert Step(h.states[i - 1], h.actions[i - 1], h.states[i]);
      StepInv(h.states[i - 1], h.actions[i - 1]);
    }
  }

  lemma NextGrows(h: History, i: nat)
    requires Legal(h) && i < |h.actions|
    ensures Grows(h.states[i], h.states[i + 1])
  {
    ReachableInv(h, i);
    assert Step(h.states[i], h.actions[i], h.states[i + 1]);
    StepGrows(h.states[i], h.actions[i]);
  }

  /** What one reachable state holds, every later one extends. */
  lemma {:induction false} LaterGrows(h: History, i: nat, j: nat)
    requires Legal(h) && i <= j <= |h.actions|
    ensures Grows(h.states[i], h.states[j])
    decreases j
  {
    if i < j {
      LaterGrows(h, i, j - 1);
      NextGrows(h, j - 1);
      GrowsTrans(h.states[i], h.states[j - 1], h.states[j]);
    }
  }

  lemma ExtensionGrows(h: History, k: History)
    requires Legal(h) && Legal(k) && Extends(h, k)
    ensures Grows(Now(h), Now(k))
  {
    LaterGrows(k, |h.actions|, |k.actions|);
    assert k.states[|h.actions|] == h.states[|h.actions|];
  }

  // ------------------------------------------------------------------------
  // Theorems over whole histories
  // ------------------------------------------------------------------------

  /** A command an attempt was begun for never admits another, in any later state. */
  lemma BegunStays(h: History, i: nat, j: nat)
    requires Legal(h) && i < |h.actions| && h.actions[i].Begin? && i < j <= |h.actions|
    ensures h.actions[i].cmd in h.states[j].records
    ensures h.states[j].records[h.actions[i].cmd].attempt.Some?
    ensures RecordOk(h.states[j], h.states[j].records[h.actions[i].cmd])
  {
    assert Step(h.states[i], h.actions[i], h.states[i + 1]);
    LaterGrows(h, i + 1, j);
    ReachableInv(h, j);
  }

  /** At most one attempt is ever authorized for a command, whoever asks and however they interleave. */
  lemma AtMostOneAttempt(h: History, i: nat, j: nat)
    requires Legal(h) && i < j < |h.actions| && h.actions[i].Begin? && h.actions[j].Begin?
    ensures h.actions[i].cmd != h.actions[j].cmd
  {
    BegunStays(h, i, j);
    assert Step(h.states[j], h.actions[j], h.states[j + 1]);
  }

  ghost predicate Claims(a: Action, cmd: CommandId) { a.Claim? && a.cmd == cmd }

  /** A record under some claim: not pending, and not settled. */
  predicate UnderClaim(s: State, cmd: CommandId) {
    cmd in s.records && (s.records[cmd].state == Claimed || s.records[cmd].state == Applying)
  }

  lemma ClaimStep(s: State, a: Action, cmd: CommandId)
    requires Enabled(s, a) && UnderClaim(Apply(s, a), cmd)
    ensures var r := Apply(s, a).records[cmd];
            if Claims(a, cmd) then r.claimResidency == a.host && r.claimExpires == a.expires
            else UnderClaim(s, cmd) && s.records[cmd].claimResidency == r.claimResidency &&
                 s.records[cmd].claimExpires == r.claimExpires
  {
  }

  /** A claimed or applying record is under the claim of the last Host to claim it, for as long as that asked for. */
  lemma {:induction false} ClaimOrigin(h: History, j: nat, cmd: CommandId) returns (i: nat)
    requires Legal(h) && j <= |h.actions| && UnderClaim(h.states[j], cmd)
    ensures i < j && Claims(h.actions[i], cmd)
    ensures h.actions[i].host == h.states[j].records[cmd].claimResidency
    ensures h.actions[i].expires == h.states[j].records[cmd].claimExpires
    ensures forall k :: i < k < j ==> !Claims(h.actions[k], cmd)
    decreases j
  {
    if j > 0 {
      assert Step(h.states[j - 1], h.actions[j - 1], h.states[j]);
      ClaimStep(h.states[j - 1], h.actions[j - 1], cmd);
      if Claims(h.actions[j - 1], cmd) { i := j - 1; } else { i := ClaimOrigin(h, j - 1, cmd); }
    }
  }

  /**
   An attempt is begun, and a command rejected by a Host, only under that Host's own claim, which is live and which
   nobody has taken over; a claim is taken over only by a later residency, or by its own once it has lapsed; and no
   residency earlier than the claim's settles the command.
   */
  lemma WrittenUnderOwnClaim(h: History, j: nat) returns (i: nat)
    requires Legal(h) && j < |h.actions|
    requires h.actions[j].Begin? || h.actions[j].Reject? || h.actions[j].Settle? ||
             (h.actions[j].Claim? && UnderClaim(h.states[j], h.actions[j].cmd))
    ensures i < j && Claims(h.actions[i], h.actions[j].cmd)
    ensures forall k :: i < k < j ==> !Claims(h.actions[k], h.actions[j].cmd)
    ensures h.actions[j].Begin? || h.actions[j].Reject? ==>
              h.actions[i].host == h.actions[j].host && h.states[j].clock < h.actions[i].expires
    ensures h.actions[j].Claim? ==>
              || h.actions[i].host < h.actions[j].host
              || (h.actions[i].host == h.actions[j].host && h.actions[i].expires <= h.states[j].clock)
    ensures h.actions[j].Settle? ==> h.actions[i].host <= h.actions[j].host
  {
    assert Step(h.states[j], h.actions[j], h.states[j + 1]);
    if h.actions[j].Claim? {
      ReachableInv(h, j);
      assert RecordOk(h.states[j], h.states[j].records[h.actions[j].cmd]);
    }
    i := ClaimOrigin(h, j, h.actions[j].cmd);
  }

  /** Every journal grant is later than all before it, so two Hosts never write under one. */
  lemma GrantsAscend(h: History, i: nat, j: nat)
    requires Legal(h) && i < j < |h.actions| && h.actions[i].OpenJournal? && h.actions[j].OpenJournal?
    ensures h.actions[i].grant < h.actions[j].grant
  {
    assert Step(h.states[i], h.actions[i], h.states[i + 1]);
    LaterGrows(h, i + 1, j);
    assert Step(h.states[j], h.actions[j], h.states[j + 1]);
  }

  /** The action gives the Host this permit. */
  ghost predicate Grants(a: Action, host: nat, p: Permit) {
    match p
    case Idle => false
    case MayDrive(cmd, id) => a.Begin? && a.host == host && a.cmd == cmd && a.attempt == id && a.acked
    case MayClose(cmd) => a.SettleFailed? && a.host == host && a.cmd == cmd
  }

  /** The action spends or drops whatever permit the Host holds. */
  ghost predicate Spends(a: Action, host: nat) {
    (a.Forgo? || a.DriveRuntime? || a.Close? || a.Crash?) && a.host == host
  }

  lemma PermitStep(s: State, a: Action, host: nat)
    requires Enabled(s, a) && host in Apply(s, a).hosts && !Apply(s, a).hosts[host].permit.Idle?
    ensures !Spends(a, host)
    ensures Grants(a, host, Apply(s, a).hosts[host].permit) ||
            (host in s.hosts && s.hosts[host].permit == Apply(s, a).hosts[host].permit)
  {
  }

  /** A permit comes from an answer the Host itself was given, and not spent since. */
  lemma {:induction false} PermitOrigin(h: History, j: nat, host: nat) returns (i: nat)
    requires Legal(h) && j <= |h.actions|
    requires host in h.states[j].hosts && !h.states[j].hosts[host].permit.Idle?
    ensures i < j && Grants(h.actions[i], host, h.states[j].hosts[host].permit)
    ensures forall k :: i < k < j ==> !Spends(h.actions[k], host)
    decreases j
  {
    if j > 0 {
      assert Step(h.states[j - 1], h.actions[j - 1], h.states[j]);
      PermitStep(h.states[j - 1], h.actions[j - 1], host);
      if Grants(h.actions[j - 1], host, h.states[j].hosts[host].permit) {
        i := j - 1;
      } else {
        i := PermitOrigin(h, j - 1, host);
      }
    }
  }

  /**
   The runtime is driven for a command at most once, only by the Host whose attempt was recorded
   and acknowledged, only with that attempt's identity, and the record names them ever after.
   */
  lemma DrivenOnceAsAuthorized(h: History, j: nat) returns (i: nat)
    requires Legal(h) && j < |h.actions| && h.actions[j].DriveRuntime?
    ensures h.actions[j].host in h.states[j].hosts && h.states[j].hosts[h.actions[j].host].permit.MayDrive?
    ensures var host, p := h.actions[j].host, h.states[j].hosts[h.actions[j].host].permit;
            && i < j && Grants(h.actions[i], host, p)
            && !Driven(h.states[j], p.cmd)
            && forall k :: j <= k <= |h.actions| ==>
                 p.cmd in h.states[k].records && h.states[k].records[p.cmd].attempt.Some? &&
                 h.states[k].records[p.cmd].attempt.value.id == p.attempt &&
                 h.states[k].records[p.cmd].attempt.value.residency == host
    ensures DrivesOk(Now(h))
  {
    assert Step(h.states[j], h.actions[j], h.states[j + 1]);
    ReachableInv(h, j);
    assert HostOk(h.states[j], h.actions[j].host);
    i := PermitOrigin(h, j, h.actions[j].host);
    forall k | j <= k <= |h.actions| ensures Grows(h.states[j], h.states[k]) { LaterGrows(h, j, k); }
    ReachableInv(h, |h.actions|);
  }

  /** In every reachable state, evidence of an applying record's attempt can be settled by any Host not superseded. */
  lemma EvidenceIsSettleable(h: History, n: nat, host: nat, cmd: CommandId, v: CommandState)
    requires Legal(h) && n <= |h.actions| && host in h.states[n].hosts && cmd in h.states[n].records
    requires h.states[n].records[cmd].attempt.Some? && h.states[n].records[cmd].claimResidency <= host
    requires HasEvidence(h.states[n].journal, cmd, h.states[n].records[cmd].attempt.value, v)
    ensures Terminal(h.states[n].records[cmd].state) ||
            Enabled(h.states[n], Settle(host, cmd, h.states[n].records[cmd].revision, v))
  {
    ReachableInv(h, n);
    assert RecordOk(h.states[n], h.states[n].records[cmd]);
  }

  /** There is evidence of the command's attempt, and so something to settle it by. */
  ghost predicate Evidenced(s: State, cmd: CommandId) {
    cmd in s.records && s.records[cmd].attempt.Some? &&
    exists v :: HasEvidence(s.journal, cmd, s.records[cmd].attempt.value, v)
  }

  /** Evidence of a command's attempt stays. */
  lemma EvidencedStays(h: History, k: History, cmd: CommandId)
    requires Legal(h) && Legal(k) && Extends(h, k) && Evidenced(Now(h), cmd)
    ensures Evidenced(Now(k), cmd)
  {
    ExtensionGrows(h, k);
    var s := Now(h);
    var v :| HasEvidence(s.journal, cmd, s.records[cmd].attempt.value, v);
    EvidenceGrows(s.journal, Now(k).journal, cmd, s.records[cmd].attempt.value, v);
  }

  /** A disposed or a closed attempt is one there is evidence of. */
  lemma ClosureIsEvidence(h: History, cmd: CommandId)
    requires Legal(h) && (IsDisposed(Now(h).journal, cmd) || IsClosed(Now(h).journal, cmd))
    ensures Evidenced(Now(h), cmd)
  {
    var s := Now(h);
    ReachableInv(h, |h.actions|);
    var i :| 0 <= i < |s.journal| && !s.journal[i].Effect? && s.journal[i].cmd == cmd;
    assert EntryOk(s, s.journal[i]);
    var v := if s.journal[i].Closed? then Rejected else Verdict(s.journal[i].what);
    assert Supports(s.journal[i], cmd, s.records[cmd].attempt.value, v);
    assert HasEvidence(s.journal, cmd, s.records[cmd].attempt.value, v);
  }

  /**
   A Host may call the closer only after its own settlement of that command failed, since its last step, for the cause
   it had.  If there was evidence then, written by the runtime or by an earlier closer, the settlement met a real
   fault: the store was not reached, the Host's fence was lost, the record was settled and the answer lost, or a later
   residency holds the claim.  This is of every call, whatever the closer answers.
   */
  lemma CloserOnlyAfterFailedSettlement(h: History, j: nat, host: nat) returns (i: nat)
    requires Legal(h) && j <= |h.actions| && host in h.states[j].hosts && h.states[j].hosts[host].permit.MayClose?
    ensures i < j && h.actions[i].SettleFailed?
    ensures h.actions[i].host == host && h.actions[i].cmd == h.states[j].hosts[host].permit.cmd
    ensures forall k :: i < k < j ==> !Spends(h.actions[k], host)
    ensures var s, cmd := h.states[i], h.actions[i].cmd;
            && host in s.hosts && cmd in s.records && s.records[cmd].attempt.Some?
            && FaultOk(s, host, cmd, h.actions[i].fault)
            && (Evidenced(s, cmd) ==>
                  || h.actions[i].fault.Unreached?
                  || (h.actions[i].fault.FenceLost? && s.hosts[host].lost)
                  || (h.actions[i].fault.AckLost? && Terminal(s.records[cmd].state))
                  || (h.actions[i].fault.Superseded? && host < s.records[cmd].claimResidency))
  {
    i := PermitOrigin(h, j, host);
    assert Step(h.states[i], h.actions[i], h.states[i + 1]);
  }

  /**
   A recovery closure is written only on such a call, under a grant strictly later than the attempt's, over a journal
   that has neither an effect nor a disposition of the command.
   */
  lemma ClosureIsLastResort(h: History, j: nat) returns (i: nat)
    requires Legal(h) && j < |h.actions| && h.actions[j].Close?
    ensures i < j && h.actions[i].SettleFailed?
    ensures h.actions[i].host == h.actions[j].host && h.actions[i].cmd == h.actions[j].cmd
    ensures forall k :: i < k < j ==> !Spends(h.actions[k], h.actions[j].host)
    ensures h.actions[j].host in h.states[j].hosts && h.actions[j].cmd in h.states[j].records
    ensures var s, cmd, host := h.states[j], h.actions[j].cmd, h.actions[j].host;
            && s.hosts[host].grant.Some? && s.records[cmd].attempt.Some?
            && s.records[cmd].attempt.value.journalEpoch < s.hosts[host].grant.value
            && !HasEffect(s.journal, cmd) && !IsDisposed(s.journal, cmd)
    ensures var s, cmd, host := h.states[i], h.actions[i].cmd, h.actions[i].host;
            && host in s.hosts && cmd in s.records && s.records[cmd].attempt.Some?
            && FaultOk(s, host, cmd, h.actions[i].fault)
            && (Evidenced(s, cmd) ==> !h.actions[i].fault.NoEvidence?)
  {
    assert Step(h.states[j], h.actions[j], h.states[j + 1]);
    i := CloserOnlyAfterFailedSettlement(h, j, h.actions[j].host);
  }

  /** Once an attempt is closed, its command has no committed effect now or in any later state. */
  lemma ClosedNeverTakesEffect(h: History, i: nat, j: nat, cmd: CommandId)
    requires Legal(h) && i <= j <= |h.actions| && IsClosed(h.states[i].journal, cmd)
    ensures !HasEffect(h.states[j].journal, cmd) && !IsDisposed(h.states[j].journal, cmd)
    ensures cmd in h.states[j].records && h.states[j].records[cmd].state != Applied
  {
    LaterGrows(h, i, j);
    ReachableInv(h, j);
    var s, t := h.states[i], h.states[j];
    var k :| 0 <= k < |s.journal| && s.journal[k].Closed? && s.journal[k].cmd == cmd;
    assert t.journal[k] == s.journal[k];
    assert EntryOk(t, t.journal[k]);
    assert RecordOk(t, t.records[cmd]);
  }

  /**
   What a settled command's state says about the journal, in both directions: applied exactly when
   the runtime disposed it so, and then it was driven; rejected after an attempt exactly when the
   runtime refused it or a successor closed it.
   */
  lemma SettledExactlyAsDisposed(h: History, n: nat, cmd: CommandId)
    requires Legal(h) && n <= |h.actions| && cmd in h.states[n].records
    requires Terminal(h.states[n].records[cmd].state) && h.states[n].records[cmd].attempt.Some?
    ensures var s := h.states[n];
            && (s.records[cmd].state == Applied <==> DisposedAs(s.journal, cmd, false))
            && (s.records[cmd].state == Rejected <==> IsClosed(s.journal, cmd) || DisposedAs(s.journal, cmd, true))
            && (s.records[cmd].state == Applied ==> Driven(s, cmd))
  {
    ReachableInv(h, n);
    var s := h.states[n];
    var r := s.records[cmd];
    assert HasEvidence(s.journal, cmd, r.attempt.value, r.state);
    var e :| 0 <= e < |s.journal| && Supports(s.journal[e], cmd, r.attempt.value, r.state);
    assert EntryOk(s, s.journal[e]);
    forall i | 0 <= i < |s.journal| && s.journal[i].Disposed? && s.journal[i].cmd == cmd ensures i == e {
      assert !s.journal[e].Closed?;
      assert !(i < e) && !(e < i);
    }
    if IsClosed(s.journal, cmd) {
      var c :| 0 <= c < |s.journal| && s.journal[c].Closed? && s.journal[c].cmd == cmd;
      assert s.journal[e].Closed?;
    }
  }

  /** The runtime refused the command, or it did not: it applied it, or found nothing to do. */
  ghost predicate DisposedAs(journal: seq<Entry>, cmd: CommandId, refused: bool) {
    exists i :: 0 <= i < |journal| && journal[i].Disposed? && journal[i].cmd == cmd &&
        journal[i].what.DisposedRefused? == refused
  }

  /** A Host's own rejection is written on a claimed record with no attempt, and none ever follows it. */
  lemma RejectionPrecludesAttempt(h: History, i: nat)
    requires Legal(h) && i < |h.actions| && h.actions[i].Reject?
    ensures h.actions[i].cmd in h.states[i].records
    ensures h.states[i].records[h.actions[i].cmd].state == Claimed
    ensures h.states[i].records[h.actions[i].cmd].attempt.None?
    ensures forall j :: 0 <= j < |h.actions| && h.actions[j].Begin? ==> h.actions[j].cmd != h.actions[i].cmd
    ensures !Driven(Now(h), h.actions[i].cmd)
  {
    var cmd, n := h.actions[i].cmd, |h.actions|;
    assert Step(h.states[i], h.actions[i], h.states[i + 1]);
    ReachableInv(h, i);
    assert RecordOk(h.states[i], h.states[i].records[cmd]);
    LaterGrows(h, i + 1, n);
    ReachableInv(h, n);
    assert h.states[n].records[cmd] == h.states[i + 1].records[cmd];
    forall j | 0 <= j < n && h.actions[j].Begin? ensures h.actions[j].cmd != cmd {
      BegunStays(h, j, n);
    }
    forall d | 0 <= d < |h.states[n].drives| ensures h.states[n].drives[d].cmd != cmd {
      assert Authorized(h.states[n], h.states[n].drives[d].host, h.states[n].drives[d].cmd,
                        h.states[n].drives[d].attempt, h.states[n].drives[d].grant);
    }
  }
}
