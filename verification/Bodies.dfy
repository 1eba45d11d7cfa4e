/**
 The checks a private command body passes between the claim and the attempt:
 resolving an object reference, reading the body, and a gate response's
 ownership.  Decoding and hashing are the environment's, as functions.
 */
module Bodies {
  import opened Base

  type Bytes = seq<nat>

  const OBJECT_PREFIX := "v1:command-payload:"
  const DIGEST_PREFIX := "sha256:"

  /** A private body: inline, or behind an object reference. */
  datatype Payload = Payload(body: Bytes, ref: Option<string>)

  predicate WellFormed(p: Payload) { p.body == [] || p.ref.None? }

  datatype Metadata = Metadata(ref: string, size: nat, digest: string)

  /** A read's answer: a value, a failure no retry can change, or one a retry may. */
  datatype Fetch<+T> = Fetched(value: T) | Permanent | Transient

  /** What the object store answers for one reference, and whether the pass was cancelled by the end. */
  datatype ObjectReads = ObjectReads(
    metadata: Fetch<Metadata>, open: Fetch<Bytes>, read: Fetch<()>, close: Fetch<()>, cancelled: bool)

  datatype BodyClass = Readable | Malformed | Unsupported

  datatype Gate = Gate(open: bool, ownerEpoch: nat, openedEvent: string, openedSeq: nat)

  /** A decoded gate response's expected-open version, and the projection's answer about the gate. */
  datatype GateReads = GateReads(
    expectedEvent: string, expectedSeq: nat, load: Option<Option<Gate>>, mark: nat)

  datatype Refusal =
    | RefusalStore | RefusalForeignRecord | RefusalUnrevisionedRecord | RefusalUnknownState
    | RefusalUnsupportedKind | RefusalUnreadableCreate | RefusalUnreadableCommand
    | RefusalUnreadableGateResponse | RefusalNoGateReader | RefusalGateNotOwned
    | RefusalNoJournalGrant | RefusalInvalidAttempt | RefusalDispositionUnsupported | RefusalRuntime
    | RefusalEvidenceUnavailable | RefusalEvidenceUnroutable | RefusalNoAttemptCloser | RefusalEnduringEffect

  /** Everything a body check reads besides the body. */
  datatype Readers = Readers(
    residency: nat, hasObjects: bool, hasGates: bool, maxBody: nat,
    digest: Bytes -> string, classify: (Kind, Bytes) -> BodyClass,
    objects: ObjectReads, gate: GateReads)

  predicate HasPrefix(s: string, prefix: string) { prefix <= s }

  predicate HasSuffix(s: string, suffix: string) { |suffix| <= |s| && s[|s| - |suffix|..] == suffix }

  function TrimPrefix(s: string, prefix: string): string {
    if HasPrefix(s, prefix) then s[|prefix|..] else s
  }

  /** The reader's first n bytes. */
  function Limited(stream: Bytes, n: nat): Bytes {
    if |stream| <= n then stream else stream[..n]
  }

  predicate NamesObject(ref: string, m: Metadata) {
    && m.ref == ref && m.digest != ""
    && HasPrefix(ref, OBJECT_PREFIX)
    && HasSuffix(ref, ":" + TrimPrefix(m.digest, DIGEST_PREFIX))
  }

  datatype Dereferenced = Resolved(body: Bytes) | Bad | Fault

  function Dereference(ref: string, env: Readers): Dereferenced {
    match env.objects.metadata
    case Permanent => Bad
    case Transient => Fault
    case Fetched(m) =>
      if !NamesObject(ref, m) || env.maxBody < m.size then Bad else
      match env.objects.open
      case Permanent => Bad
      case Transient => Fault
      case Fetched(stream) =>
        // One byte beyond the bound is read, so that a provider sending more than it declared shows.
        var body := Limited(stream, env.maxBody + 1);
        if env.objects.read.Permanent? then Bad
        else if env.objects.read.Transient? then Fault
        else if env.objects.close.Permanent? then Bad
        else if env.objects.close.Transient? then Fault
        else if env.objects.cancelled then Fault
        else if env.maxBody < |body| || |body| != m.size then Bad
        else if m.digest != env.digest(body) then Bad
        else Resolved(body)
  }

  /** The object behind a reference, read whole, is what its metadata declares. */
  predicate ObjectIntact(ref: string, env: Readers, body: Bytes) {
    && env.objects.metadata.Fetched? && NamesObject(ref, env.objects.metadata.value)
    && env.objects.open == Fetched(body)
    && |body| == env.objects.metadata.value.size <= env.maxBody
    && env.digest(body) == env.objects.metadata.value.digest
  }

  /**
   A reference resolves exactly to the whole object it names, of exactly the declared size within the
   bound and of exactly the declared digest; the bounded read never lets a truncated one through.
   */
  lemma ResolvedExactlyWhenIntact(ref: string, env: Readers, body: Bytes)
    ensures Dereference(ref, env) == Resolved(body) <==>
              ObjectIntact(ref, env, body) && env.objects.read.Fetched? && env.objects.close.Fetched? &&
                  !env.objects.cancelled
  {
    if env.objects.open.Fetched? {
      var stream := env.objects.open.value;
      assert |Limited(stream, env.maxBody + 1)| <= env.maxBody ==> Limited(stream, env.maxBody + 1) == stream;
    }
  }

  /** What a checked body leads to. */
  datatype Decision = Dispatch(body: Bytes) | RejectBody | Block(why: Refusal)

  function Classified(c: BodyClass, body: Bytes, blocked: Refusal): Decision {
    match c
    case Readable => Dispatch(body)
    case Malformed => RejectBody
    case Unsupported => Block(blocked)
  }

  function CheckGateResponse(p: Payload, env: Readers): Decision {
    if p.body == [] && p.ref.Some? then RejectBody else
    match env.classify(GateResponse, p.body)
    case Unsupported => Block(RefusalUnreadableGateResponse)
    case Malformed => RejectBody
    case Readable =>
      if !env.hasGates then Block(RefusalNoGateReader)
      else if env.gate.load.None? then Block(RefusalStore)
      else if Mark(env.gate) != env.residency then Block(RefusalGateNotOwned)
      else if env.gate.load.value.None? || !env.gate.load.value.value.open then Dispatch(p.body)
      else if VersionMatches(env.gate, env.gate.load.value.value) then Dispatch(p.body)
      else RejectBody
  }

  /** The projection's residency mark, which it answers whether or not it holds the gate. */
  function Mark(g: GateReads): nat {
    if g.load.Some? && g.load.value.Some? then g.load.value.value.ownerEpoch else g.mark
  }

  predicate VersionMatches(g: GateReads, gate: Gate) {
    (g.expectedEvent == "" || g.expectedEvent == gate.openedEvent) &&
    (g.expectedSeq == 0 || g.expectedSeq == gate.openedSeq)
  }

  function CheckBody(kind: Kind, p: Payload, env: Readers): Decision {
    if kind == GateResponse then CheckGateResponse(p, env)
    else if kind == Create then
      if p.ref.Some? then Block(RefusalUnreadableCreate)
      else Classified(env.classify(kind, p.body), p.body, RefusalUnreadableCreate)
    else if p.ref.Some? || kind == OtherKind then Block(RefusalUnreadableCommand)
    else Classified(env.classify(kind, p.body), p.body, RefusalUnreadableCommand)
  }

  /** The whole check, from the loaded payload to a decision. */
  function Vet(kind: Kind, p: Payload, env: Readers): Decision {
    if !WellFormed(p) then RejectBody
    else if p.ref.Some? && env.hasObjects then
      match Dereference(p.ref.value, env)
      case Bad => RejectBody
      case Fault => Block(RefusalStore)
      case Resolved(body) => CheckBody(kind, Payload(body, None), env)
    else CheckBody(kind, p, env)
  }

  // ------------------------------------------------------------------------
  // What each decision means, said of the reads' answers alone
  // ------------------------------------------------------------------------

  /** Every read of the object was answered with a value, and the pass was not cancelled. */
  predicate ReadWhole(o: ObjectReads) {
    o.metadata.Fetched? && o.open.Fetched? && o.read.Fetched? && o.close.Fetched? && !o.cancelled
  }

  /** The command's own body, when it is known: inline, or the whole object its reference names. */
  function KnownBody(p: Payload, env: Readers): Option<Bytes> {
    if p.ref.None? then Some(p.body)
    else if p.body == [] && env.hasObjects && ReadWhole(env.objects) &&
        ObjectIntact(p.ref.value, env, env.objects.open.value) then Some(env.objects.open.value)
    else None
  }

  /** The answers prove that the reference names no object this command could have, whoever reads it. */
  predicate ProvablyBroken(ref: string, env: Readers) {
    var o := env.objects;
    || o.metadata.Permanent?
    || (o.metadata.Fetched? &&
        (|| !NamesObject(ref, o.metadata.value) || env.maxBody < o.metadata.value.size
         || o.open.Permanent?
         || (o.open.Fetched? && (o.read.Permanent? || (o.read.Fetched? && o.close.Permanent?)))))
    || (ReadWhole(o) && !ObjectIntact(ref, env, o.open.value))
  }

  /** Nothing read so far is wrong, and the first read that failed may succeed on a retry. */
  predicate ReadInterrupted(ref: string, env: Readers) {
    var o := env.objects;
    || o.metadata.Transient?
    || (o.metadata.Fetched? && NamesObject(ref, o.metadata.value) && o.metadata.value.size <= env.maxBody &&
        (|| o.open.Transient?
         || (o.open.Fetched? &&
             (|| o.read.Transient?
              || (o.read.Fetched? && (o.close.Transient? || (o.close.Fetched? && o.cancelled)))))))
  }

  /** The projection answered about the gate, and its residency mark is this Host's. */
  predicate GateOwned(env: Readers) {
    && env.hasGates && env.gate.load.Some?
    && (env.gate.load.value.Some? ==> env.gate.load.value.value.ownerEpoch == env.residency)
    && (env.gate.load.value.None? ==> env.gate.mark == env.residency)
  }

  /** The projection holds the gate open at another version than the response expects. */
  predicate OpenedOtherwise(g: GateReads) {
    && g.load.Some? && g.load.value.Some? && g.load.value.value.open
    && (|| (g.expectedEvent != "" && g.expectedEvent != g.load.value.value.openedEvent)
        || (g.expectedSeq != 0 && g.expectedSeq != g.load.value.value.openedSeq))
  }

  /** A body the runtime may be driven with: the command's own, whole, readable, and owned if it answers a gate. */
  predicate Vetted(kind: Kind, p: Payload, env: Readers, body: Bytes) {
    && KnownBody(p, env) == Some(body)
    && kind != OtherKind
    && env.classify(kind, body) == Readable
    && (kind == GateResponse ==> GateOwned(env) && !OpenedOtherwise(env.gate))
  }

  /** No Host could ever apply it: the command is immutable, and every Host reads the same answers. */
  predicate Hopeless(kind: Kind, p: Payload, env: Readers) {
    || (p.body != [] && p.ref.Some?)
    || (p.ref.Some? && env.hasObjects && ProvablyBroken(p.ref.value, env))
    || (p.ref.Some? && !env.hasObjects && kind == GateResponse)
    || (KnownBody(p, env).Some? && kind != OtherKind &&
        (|| env.classify(kind, KnownBody(p, env).value) == Malformed
         || (env.classify(kind, KnownBody(p, env).value) == Readable && kind == GateResponse &&
             GateOwned(env) && OpenedOtherwise(env.gate))))
  }

  /** A limit of this Host, or a read that may yet succeed, stands in the way; `why` names which. */
  predicate Hindered(kind: Kind, p: Payload, env: Readers, why: Refusal) {
    var body := KnownBody(p, env);
    match why
    case RefusalStore =>
      || (p.body == [] && p.ref.Some? && env.hasObjects && ReadInterrupted(p.ref.value, env))
      || (body.Some? && kind == GateResponse && env.classify(kind, body.value) == Readable && env.hasGates &&
          env.gate.load.None?)
    case RefusalUnreadableCreate =>
      && kind == Create
      && (|| (body.Some? && env.classify(kind, body.value) == Unsupported)
          || (p.body == [] && p.ref.Some? && !env.hasObjects))
    case RefusalUnreadableCommand =>
      && kind != Create && kind != GateResponse
      && (|| (body.Some? && (kind == OtherKind || env.classify(kind, body.value) == Unsupported))
          || (p.body == [] && p.ref.Some? && !env.hasObjects))
    case RefusalUnreadableGateResponse =>
      kind == GateResponse && body.Some? && env.classify(kind, body.value) == Unsupported
    case RefusalNoGateReader =>
      kind == GateResponse && body.Some? && env.classify(kind, body.value) == Readable && !env.hasGates
    case RefusalGateNotOwned =>
      && kind == GateResponse && body.Some? && env.classify(kind, body.value) == Readable
      && env.hasGates && env.gate.load.Some? && !GateOwned(env)
    case _ => false
  }

  lemma PrefixMeans(s: string, prefix: string)
    ensures HasPrefix(s, prefix) <==> exists rest: string :: s == prefix + rest
  {
    if HasPrefix(s, prefix) { assert s == prefix + s[|prefix|..]; }
  }

  lemma SuffixMeans(s: string, suffix: string)
    ensures HasSuffix(s, suffix) <==> exists front: string :: s == front + suffix
  {
    if HasSuffix(s, suffix) { assert s == s[..|s| - |suffix|] + suffix; }
  }

  /** A digest is the algorithm's name and the hexadecimal digits, or the digits alone. */
  predicate Digits(digest: string, hex: string) {
    digest == "sha256:" + hex || (digest == hex && !("sha256:" <= hex))
  }

  lemma TrimmedExactly(digest: string, hex: string)
    ensures TrimPrefix(digest, DIGEST_PREFIX) == hex <==> Digits(digest, hex)
  {
    if HasPrefix(digest, DIGEST_PREFIX) {
      assert digest == DIGEST_PREFIX + digest[|DIGEST_PREFIX|..];
    }
  }

  /** A reference names an object of this command exactly when it starts as one does and ends in its digest. */
  lemma NamedExactly(ref: string, m: Metadata)
    ensures NamesObject(ref, m) <==>
              && m.ref == ref && m.digest != ""
              && (exists rest: string :: ref == "v1:command-payload:" + rest)
              && (exists front: string, hex: string :: ref == front + (":" + hex) && Digits(m.digest, hex))
  {
    var hex := TrimPrefix(m.digest, DIGEST_PREFIX);
    PrefixMeans(ref, OBJECT_PREFIX);
    SuffixMeans(ref, ":" + hex);
    TrimmedExactly(m.digest, hex);
    forall front: string, h: string | ref == front + (":" + h) && Digits(m.digest, h)
      ensures HasSuffix(ref, ":" + hex)
    {
      TrimmedExactly(m.digest, h);
    }
  }

  /** The bounded read reads an object that is not intact as what it is: a known body, a proof, or neither. */
  lemma DereferencedExactly(ref: string, env: Readers)
    ensures Dereference(ref, env).Bad? <==> ProvablyBroken(ref, env)
    ensures Dereference(ref, env).Fault? <==> ReadInterrupted(ref, env)
    ensures forall body :: Dereference(ref, env) == Resolved(body) <==>
                             ReadWhole(env.objects) && ObjectIntact(ref, env, body)
  {
    forall body {
      ResolvedExactlyWhenIntact(ref, env, body);
    }
    if env.objects.open.Fetched? {
      ResolvedExactlyWhenIntact(ref, env, env.objects.open.value);
    }
  }

  /** Exactly the vetted bodies are dispatched. */
  lemma DispatchedExactlyWhenVetted(kind: Kind, p: Payload, env: Readers, body: Bytes)
    ensures Vet(kind, p, env) == Dispatch(body) <==> Vetted(kind, p, env, body)
  {
    if p.ref.Some? { DereferencedExactly(p.ref.value, env); }
  }

  /** A command is rejected exactly when no Host could ever apply its body. */
  lemma RejectedExactlyWhenHopeless(kind: Kind, p: Payload, env: Readers)
    ensures Vet(kind, p, env) == RejectBody <==> Hopeless(kind, p, env)
  {
    if p.ref.Some? { DereferencedExactly(p.ref.value, env); }
  }

  /** It is left claimed, for the reason named, exactly when a limit of this Host or a passing fault is in the way. */
  lemma BlockedExactlyWhenHindered(kind: Kind, p: Payload, env: Readers, why: Refusal)
    ensures Vet(kind, p, env) == Block(why) <==> Hindered(kind, p, env, why)
  {
    if p.ref.Some? { DereferencedExactly(p.ref.value, env); }
  }

  /** The same answers, except that a read that failed transiently or was cancelled may now have succeeded. */
  ghost predicate Retries(env: Readers, again: Readers) {
    && again == env.(objects := again.objects)
    && (env.objects.metadata.Transient? || again.objects.metadata == env.objects.metadata)
    && (env.objects.open.Transient? || again.objects.open == env.objects.open)
    && (env.objects.read.Transient? || again.objects.read == env.objects.read)
    && (env.objects.close.Transient? || again.objects.close == env.objects.close)
    && (env.objects.cancelled || !again.objects.cancelled)
  }

  /** A decision that is not a block is final: no retry of the reads changes it. */
  lemma DecisionSurvivesRetry(kind: Kind, p: Payload, env: Readers, again: Readers)
    requires Retries(env, again) && !Vet(kind, p, env).Block?
    ensures Vet(kind, p, again) == Vet(kind, p, env)
  {
    if WellFormed(p) && p.ref.Some? && env.hasObjects {
      assert Dereference(p.ref.value, again) == Dereference(p.ref.value, env);
    }
  }
}
