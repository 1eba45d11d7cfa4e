/**
 The live pump: one ordered, bounded queue for two classes of publication.
 Ephemeral entries have their own limit and are dropped over it; an enduring one
 that does not fit ends the subscription instead.
 */
module LivePump {
  import opened Base

  const EnduringLimit := 256
  const EphemeralLimit := 16
  const MaxPreviewBytes := 2048

  /** What a transient event carries; only some of it may be shown. */
  datatype Transient = TextDelta(bytes: nat) | ThinkingDelta(bytes: nat) | ToolStep | OtherTransient

  datatype Delivery =
    | NoEvent
    | EnduringEvent(committed: bool, seqno: nat, covered: nat, body: nat)
    // `projects`: the wire projection accepts it as ephemeral
    | EphemeralEvent(what: Transient, body: nat, projects: bool)

  datatype Publication =
    | Enduring(seqno: nat, covered: nat, body: nat)
    | Ephemeral(body: nat)
    | Terminal(seqno: nat)

  datatype Options = Options(includeReasoning: bool, includeToolSteps: bool)

  predicate Shown(t: Transient, o: Options) {
    match t
    case TextDelta(bytes) => 0 < bytes <= MaxPreviewBytes
    case ThinkingDelta(bytes) => o.includeReasoning && 0 < bytes <= MaxPreviewBytes
    case ToolStep => o.includeToolSteps
    case OtherTransient => false
  }

  function Publish(d: Delivery): Publication
    requires !d.NoEvent?
  {
    match d
    case EnduringEvent(committed, seqno, covered, body) =>
      if committed then Enduring(seqno, covered, body) else Terminal(seqno)
    case EphemeralEvent(_, body, _) => Ephemeral(body)
  }

  // ------------------------------------------------------------------------
  // What a reader of the queue is promised
  // ------------------------------------------------------------------------

  /** The enduring publications among some, in order. */
  function EnduringOf(ps: seq<Publication>): seq<Publication> {
    if ps == [] then [] else EnduringOf(ps[..|ps| - 1]) + (if Last(ps).Enduring? then [Last(ps)] else [])
  }

  function EphemeralIn(ps: seq<Publication>): nat {
    if ps == [] then 0 else EphemeralIn(ps[..|ps| - 1]) + (if Last(ps).Ephemeral? then 1 else 0)
  }

  /** The committed deliveries among those read, as publications. */
  function CommittedOf(ds: seq<Delivery>): seq<Publication> {
    if ds == [] then []
    else
      var d := Last(ds);
      CommittedOf(ds[..|ds| - 1]) + (if d.EnduringEvent? && d.committed then [Publish(d)] else [])
  }

  function EphemeralRead(ds: seq<Delivery>): nat {
    if ds == [] then 0 else EphemeralRead(ds[..|ds| - 1]) + (if Last(ds).EphemeralEvent? then 1 else 0)
  }

  /**
   What a reader may be sent of a transient: text, reasoning only if it opted in to it, each of 1 to 2048 bytes; and
   tool steps only if it opted in to those; and of these only what the wire projection accepts.
   */
  predicate Allowed(d: Delivery, o: Options) {
    && d.EphemeralEvent? && d.projects
    && !d.what.OtherTransient?
    && (d.what.ThinkingDelta? ==> o.includeReasoning)
    && (d.what.ToolStep? ==> o.includeToolSteps)
    && (d.what.TextDelta? || d.what.ThinkingDelta? ==> 1 <= d.what.bytes <= 2048)
  }

  /** The publication is what the delivery may be sent as. */
  predicate Sendable(p: Publication, d: Delivery, o: Options) {
    match p
    case Enduring(seqno, covered, body) => d == EnduringEvent(true, seqno, covered, body)
    case Terminal(seqno) => d.EnduringEvent? && !d.committed && d.seqno == seqno
    case Ephemeral(body) => Allowed(d, o) && d.body == body
  }

  /** The publications come from deliveries they may be sent for, in the order these were read. */
  predicate InOrder(ps: seq<Publication>, ds: seq<Delivery>, o: Options) {
    if ps == [] then true
    else if ds == [] then false
    else
      || (Sendable(Last(ps), Last(ds), o) && InOrder(ps[..|ps| - 1], ds[..|ds| - 1], o))
      || InOrder(ps, ds[..|ds| - 1], o)
  }

  /** Some delivery read may be sent as this preview. */
  ghost predicate Previewed(p: Publication, ds: seq<Delivery>, o: Options)
    requires p.Ephemeral?
  {
    exists d :: d in ds && Allowed(d, o) && d.body == p.body
  }

  /** So each of them comes from one. */
  lemma {:induction false} EachSendable(ps: seq<Publication>, ds: seq<Delivery>, o: Options, k: nat)
    requires InOrder(ps, ds, o) && k < |ps|
    ensures exists d :: d in ds && Sendable(ps[k], d, o)
  {
    if Sendable(Last(ps), Last(ds), o) && InOrder(ps[..|ps| - 1], ds[..|ds| - 1], o) {
      if k < |ps| - 1 { EachSendable(ps[..|ps| - 1], ds[..|ds| - 1], o, k); }
    } else {
      EachSendable(ps, ds[..|ds| - 1], o, k);
    }
  }

  /** Everything published or still queued, against everything read. */
  ghost predicate Flow(ps: seq<Publication>, ds: seq<Delivery>, drops: nat, o: Options) {
    && EnduringOf(ps) == CommittedOf(ds)
    && EphemeralRead(ds) == EphemeralIn(ps) + drops
    && InOrder(ps, ds, o)
  }

  /** A terminal, if there is one, is last; and nothing is read after it. */
  predicate TerminalLast(ps: seq<Publication>, reading: bool) {
    && (forall k :: 0 <= k < |ps| - 1 ==> !ps[k].Terminal?)
    && (reading ==> ps != [] ==> !Last(ps).Terminal?)
    && (!reading ==> ps != [] && Last(ps).Terminal?)
  }

  /** The counters are the queue's two classes, each within its limit. */
  ghost predicate Counted(pending: seq<Publication>, enduring: nat, ephemeral: nat) {
    enduring == |EnduringOf(pending)| <= EnduringLimit && ephemeral == EphemeralIn(pending) <= EphemeralLimit
  }

  function One(b: bool): nat { if b then 1 else 0 }

  /** The queue and what was sent, against what was read. */
  ghost predicate InStep(sent: seq<Publication>, pending: seq<Publication>, read: seq<Delivery>, drops: nat,
      reading: bool, o: Options) {
    Flow(sent + pending, read, drops, o) && TerminalLast(sent + pending, reading)
  }

  lemma CountsOf(p: Publication, rest: seq<Publication>)
    ensures EnduringOf([p] + rest) == (if p.Enduring? then [p] else []) + EnduringOf(rest)
    ensures EphemeralIn([p] + rest) == (if p.Ephemeral? then 1 else 0) + EphemeralIn(rest)
    ensures EnduringOf(rest + [p]) == EnduringOf(rest) + (if p.Enduring? then [p] else [])
    ensures EphemeralIn(rest + [p]) == EphemeralIn(rest) + (if p.Ephemeral? then 1 else 0)
  {
    EnduringConcat([p], rest);
    EnduringConcat(rest, [p]);
    assert EnduringOf([p]) == if p.Enduring? then [p] else [];
    assert EphemeralIn([p]) == if p.Ephemeral? then 1 else 0;
  }

  lemma FlowQueued(ps: seq<Publication>, ds: seq<Delivery>, drops: nat, d: Delivery, o: Options)
    requires Flow(ps, ds, drops, o) && !d.NoEvent? && Sendable(Publish(d), d, o)
    ensures Flow(ps + [Publish(d)], ds + [d], drops, o)
  {
    assert (ps + [Publish(d)])[..|ps|] == ps && (ds + [d])[..|ds|] == ds;
  }

  lemma FlowDropped(ps: seq<Publication>, ds: seq<Delivery>, drops: nat, d: Delivery, o: Options)
    requires Flow(ps, ds, drops, o) && d.EphemeralEvent?
    ensures Flow(ps, ds + [d], drops + 1, o)
  {
    assert (ds + [d])[..|ds|] == ds;
  }

  lemma {:induction false} EnduringConcat(a: seq<Publication>, b: seq<Publication>)
    ensures EnduringOf(a + b) == EnduringOf(a) + EnduringOf(b)
    ensures EphemeralIn(a + b) == EphemeralIn(a) + EphemeralIn(b)
  {
    if b == [] {
      assert a + b == a;
    } else {
      EnduringConcat(a, b[..|b| - 1]);
      assert (a + b)[..|a + b| - 1] == a + b[..|b| - 1];
    }
  }

  /** A queue whose only terminal is last is no longer than its two classes and that terminal. */
  lemma {:induction false} QueueLength(ps: seq<Publication>)
    requires forall k :: 0 <= k < |ps| - 1 ==> !ps[k].Terminal?
    ensures |ps| == |EnduringOf(ps)| + EphemeralIn(ps) + (if ps != [] && Last(ps).Terminal? then 1 else 0)
  {
    if ps != [] {
      var front := ps[..|ps| - 1];
      QueueLength(front);
      if front != [] { assert !Last(front).Terminal?; }
    }
  }

  /** Taking the queue's first publication only moves it; a terminal leaves the queue empty. */
  lemma Moved(
    sent: seq<Publication>, pending: seq<Publication>, read: seq<Delivery>, drops: nat, reading: bool, enduring: nat,
        ephemeral: nat, o: Options)
    requires pending != [] && InStep(sent, pending, read, drops, reading, o) && Counted(pending, enduring, ephemeral)
    ensures InStep(sent + [pending[0]], pending[1..], read, drops, reading, o)
    ensures pending[0].Enduring? ==> enduring > 0 && Counted(pending[1..], enduring - 1, ephemeral)
    ensures pending[0].Ephemeral? ==> ephemeral > 0 && Counted(pending[1..], enduring, ephemeral - 1)
    ensures pending[0].Terminal? ==> pending == [pending[0]] && Counted([], enduring, ephemeral)
  {
    assert (sent + [pending[0]]) + pending[1..] == sent + pending;
    CountsOf(pending[0], pending[1..]);
    assert [pending[0]] + pending[1..] == pending;
    assert pending[0] == (sent + pending)[|sent|];
  }

  lemma CountedQueued(pending: seq<Publication>, enduring: nat, ephemeral: nat, p: Publication)
    requires Counted(pending, enduring, ephemeral)
    requires (p.Enduring? ==> enduring < EnduringLimit) && (p.Ephemeral? ==> ephemeral < EphemeralLimit)
    ensures Counted(pending + [p], enduring + One(p.Enduring?), ephemeral + One(p.Ephemeral?))
  {
    CountsOf(p, pending);
  }

  /** Queueing a delivery's publication keeps the flow; only a terminal stops the reading. */
  lemma Queued(sent: seq<Publication>, pending: seq<Publication>, read: seq<Delivery>, drops: nat, d: Delivery,
      o: Options)
    requires InStep(sent, pending, read, drops, true, o) && !d.NoEvent? && Sendable(Publish(d), d, o)
    ensures InStep(sent, pending + [Publish(d)], read + [d], drops, !Publish(d).Terminal?, o)
  {
    FlowQueued(sent + pending, read, drops, d, o);
    assert (sent + pending) + [Publish(d)] == sent + (pending + [Publish(d)]);
  }

  // ------------------------------------------------------------------------
  // The pump
  // ------------------------------------------------------------------------

  /** What the pump's select finds ready. */
  datatype Ready = Cancelled | Taken | Arrived(d: Delivery) | SubscriptionClosed

  /** The pump at one moment, and all it has sent and read. */
  datatype View = View(
    sent: seq<Publication>, pending: seq<Publication>, read: seq<Delivery>, drops: nat, reading: bool)

  /** An enduring delivery that finds its class full. */
  predicate Overflows(v: View, d: Delivery) {
    d.EnduringEvent? && d.committed && |EnduringOf(v.pending)| == 256
  }

  /** The next view once a delivery has arrived, unless it ends the pump. */
  predicate Receives(v: View, d: Delivery, w: View, o: Options) {
    if d.EphemeralEvent? then
      // Queued exactly when it may be sent and its class has room; dropped and counted otherwise.
      w == if Allowed(d, o) && EphemeralIn(v.pending) < 16
           then v.(pending := v.pending + [Ephemeral(d.body)], read := v.read + [d])
           else v.(drops := v.drops + 1, read := v.read + [d])
    else if d.NoEvent? || Overflows(v, d) then w == v
    else if d.committed then
      w == v.(pending := v.pending + [Enduring(d.seqno, d.covered, d.body)], read := v.read + [d])
    else
      // Nothing more is read once a delivery that should be committed is not.
      w == v.(pending := v.pending + [Terminal(d.seqno)], read := v.read + [d], reading := false)
  }

  /** One turn of the pump. */
  predicate Turns(v: View, e: Ready, w: View, o: Options) {
    match e
    case Taken =>
      w == if v.pending == [] then v else v.(sent := v.sent + [v.pending[0]], pending := v.pending[1..])
    case Arrived(d) => if v.reading then Receives(v, d, w, o) else w == v
    case _ => w == v
  }

  /** What ends it: cancellation, the source's end, a full enduring class, or its terminal having been taken. */
  predicate Ends(v: View, e: Ready) {
    match e
    case Cancelled => true
    case SubscriptionClosed => v.reading
    case Taken => v.pending != [] && v.pending[0].Terminal?
    case Arrived(d) => v.reading && (d.NoEvent? || Overflows(v, d))
  }

  /** The pump took these turns, none before the last of which ends it; `done` when the last does. */
  ghost predicate Turned(trace: seq<View>, turns: seq<Ready>, done: bool, o: Options) {
    && |trace| == |turns| + 1
    && (forall k {:trigger turns[k]} :: 0 <= k < |turns| ==> Turns(trace[k], turns[k], trace[k + 1], o))
    && (forall k {:trigger turns[k]} :: 0 <= k < |turns| - 1 ==> !Ends(trace[k], turns[k]))
    && (done <==> turns != [] && Ends(trace[|turns| - 1], Last(turns)))
  }

  lemma TurnedOnce(trace: seq<View>, turns: seq<Ready>, o: Options, e: Ready, v: View, done: bool)
    requires Turned(trace, turns, false, o) && Turns(Last(trace), e, v, o) && (done <==> Ends(Last(trace), e))
    ensures Turned(trace + [v], turns + [e], done, o)
  {
  }

  /** It took every turn of the schedule up to the first that ended it. */
  ghost predicate Traced(trace: seq<View>, schedule: seq<Ready>, o: Options) {
    && 0 < |trace| <= |schedule| + 1
    && Turned(trace, schedule[..|trace| - 1], Ended(trace, schedule), o)
    && (|trace| <= |schedule| ==> Ended(trace, schedule))
  }

  predicate Ended(trace: seq<View>, schedule: seq<Ready>)
    requires 0 < |trace| <= |schedule| + 1
  {
    |trace| > 1 && Ends(trace[|trace| - 2], schedule[|trace| - 2])
  }

  class Pump {
    const options: Options
    var pending: seq<Publication>
    var enduring: nat
    var ephemeral: nat
    var reading: bool
    var drops: nat

    ghost var sent: seq<Publication>
    ghost var read: seq<Delivery>

    constructor (options: Options)
      ensures Valid() && Now() == View([], [], [], 0, true) && this.options == options
    {
      this.options := options;
      pending, enduring, ephemeral, reading, drops := [], 0, 0, true, 0;
      sent, read := [], [];
    }

    ghost predicate Valid()
      reads this
    {
      InStep(sent, pending, read, drops, reading, options) && Counted(pending, enduring, ephemeral)
    }

    ghost function Now(): View
      reads this
    {
      View(sent, pending, read, drops, reading)
    }

    /** A consumer takes the queue's first publication. */
    method Send() returns (last: bool)
      requires Valid() && pending != []
      modifies this`pending, this`enduring, this`ephemeral, this`sent
      ensures sent == old(sent) + [old(pending)[0]] && pending == old(pending)[1..]
      ensures Valid() && last == old(pending)[0].Terminal?
      ensures last ==> pending == []
    {
      var first := pending[0];
      Moved(sent, pending, read, drops, reading, enduring, ephemeral, options);
      last := first.Terminal?;
      if first.Enduring? { enduring := enduring - 1; } else if first.Ephemeral? { ephemeral := ephemeral - 1; }
      sent, pending := sent + [first], pending[1..];
    }

    method Queue(p: Publication, ghost d: Delivery)
      requires InStep(sent, pending + [p], read + [d], drops, !p.Terminal?, options)
      requires Counted(pending + [p], enduring + One(p.Enduring?), ephemeral + One(p.Ephemeral?))
      modifies this`pending, this`enduring, this`ephemeral, this`reading, this`read
      ensures Valid() && read == old(read) + [d] && pending == old(pending) + [p] && reading == !p.Terminal?
    {
      enduring, ephemeral := enduring + One(p.Enduring?), ephemeral + One(p.Ephemeral?);
      pending, read, reading := pending + [p], read + [d], !p.Terminal?;
    }

    method Accept(d: Delivery)
      requires Valid() && reading && !d.NoEvent?
      requires d.EnduringEvent? && d.committed ==> enduring < EnduringLimit
      requires d.EphemeralEvent? ==> ephemeral < EphemeralLimit && Allowed(d, options)
      modifies this`pending, this`enduring, this`ephemeral, this`reading, this`read
      ensures Valid() && read == old(read) + [d] && pending == old(pending) + [Publish(d)]
      ensures reading == !Publish(d).Terminal?
    {
      Queued(sent, pending, read, drops, d, options);
      CountedQueued(pending, enduring, ephemeral, Publish(d));
      Queue(Publish(d), d);
    }

    method Drop(ghost d: Delivery)
      requires Valid() && d.EphemeralEvent?
      modifies this`drops, this`read
      ensures Valid() && read == old(read) + [d] && drops == old(drops) + 1
    {
      FlowDropped(sent + pending, read, drops, d, options);
      drops, read := drops + 1, read + [d];
    }

    /**
     One delivery.  A transient is queued if and only if it may be sent and its class has room; it stops for a closed
     source, or for an enduring delivery with its class full, and no transient ever stops it.
     */
    method Receive(d: Delivery) returns (stop: bool)
      requires Valid() && reading
      modifies this`pending, this`enduring, this`ephemeral, this`reading, this`read, this`drops
      ensures Valid() && Receives(old(Now()), d, Now(), options)
      ensures stop <==> d.NoEvent? || Overflows(old(Now()), d)
    {
      if d.NoEvent? { return true; }
      if d.EnduringEvent? && d.committed && enduring == EnduringLimit { return true; }
      stop := false;
      if d.EphemeralEvent? && (!Shown(d.what, options) || ephemeral == EphemeralLimit || !d.projects) {
        Drop(d);
      } else {
        Accept(d);
      }
    }

    /** One turn of the pump's select. */
    method Turn(e: Ready) returns (done: bool)
      requires Valid()
      modifies this
      ensures Valid() && Turns(old(Now()), e, Now(), options)
      ensures done <==> Ends(old(Now()), e)
    {
      done := false;
      match e {
        case Cancelled => done := true;
        case SubscriptionClosed => done := reading;
        case Taken => if pending != [] { done := Send(); }
        case Arrived(d) => if reading { done := Receive(d); }
      }
    }

    /**
     Runs on any schedule of readiness, to its end or for as long as the schedule lasts; so what it promises
     holds at every point of every run.
     */
    method Run(schedule: seq<Ready>) returns (ghost trace: seq<View>)
      requires Valid()
      modifies this
      ensures Valid()
      ensures Traced(trace, schedule, options) && trace[0] == old(Now()) && Last(trace) == Now()
      // The enduring publications emitted and queued are the committed deliveries read, in order, none missing.
      ensures EnduringOf(sent) + EnduringOf(pending) == CommittedOf(read) && EnduringOf(sent) <= CommittedOf(read)
      ensures |pending| <= 273
      ensures EphemeralRead(read) == EphemeralIn(sent) + EphemeralIn(pending) + drops
      ensures forall k :: 0 <= k < |sent| && sent[k].Terminal? ==> k == |sent| - 1 && pending == []
      // Every publication sent or queued is one its delivery may be sent as, in the order read; so every preview is
      // of a delivery the options allow.
      ensures InOrder(sent + pending, read, options)
      ensures forall p :: p in sent + pending && p.Ephemeral? ==> Previewed(p, read, options)
    {
      trace := Loop(schedule);
      Promises();
    }

    method Loop(schedule: seq<Ready>) returns (ghost trace: seq<View>)
      requires Valid()
      modifies this
      ensures Valid() && Traced(trace, schedule, options) && trace[0] == old(Now()) && Last(trace) == Now()
    {
      var i, done := 0, false;
      trace := [Now()];
      while i < |schedule| && !done
        invariant 0 <= i <= |schedule| && |trace| == i + 1 && Last(trace) == Now() && trace[0] == old(Now())
        invariant Valid() && Turned(trace, schedule[..i], done, options)
        decreases |schedule| - i
      {
        done := Turn(schedule[i]);
        TurnedOnce(trace, schedule[..i], options, schedule[i], Now(), done);
        assert schedule[..i] + [schedule[i]] == schedule[..i + 1];
        i, trace := i + 1, trace + [Now()];
      }
    }

    /** What Valid promises of every state the pump passes through. */
    lemma Promises()
      requires Valid()
      ensures EnduringOf(sent) <= CommittedOf(read)
      ensures EnduringOf(sent) + EnduringOf(pending) == CommittedOf(read)
      ensures |pending| <= 273
      ensures EphemeralRead(read) == EphemeralIn(sent) + EphemeralIn(pending) + drops
      ensures forall k :: 0 <= k < |sent| && sent[k].Terminal? ==> k == |sent| - 1 && pending == []
      ensures forall p :: p in sent + pending && p.Ephemeral? ==> Previewed(p, read, options)
    {
      EnduringConcat(sent, pending);
      assert forall k :: 0 <= k < |pending| ==> pending[k] == (sent + pending)[|sent| + k];
      assert forall k :: 0 <= k < |sent| ==> sent[k] == (sent + pending)[k];
      QueueLength(pending);
      forall p | p in sent + pending && p.Ephemeral?
        ensures Previewed(p, read, options)
      {
        var k :| 0 <= k < |sent + pending| && (sent + pending)[k] == p;
        EachSendable(sent + pending, read, options, k);
        var d :| d in read && Sendable(p, d, options);
      }
    }
  }
}
