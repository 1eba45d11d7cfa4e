# Host, modelled and proved

Host is a process that applies durable session commands exactly once across
crashes and takeovers. This project models its protocol cores in Dafny and
proves what they keep over whole runs. `dafny verify dfyconfig.toml` checks all
of it.

Two styles are used together. Code that changes state step by step is a class
whose methods carry contracts. What several Hosts, threads or runs do together is
a transition system: `Enabled` and `Apply` give one durable write, one append or
one critical section, a `History` is any interleaving of them, and a theorem is
about every state of every legal history. The two are tied: the imperative
appliers take every step in a world whose ghost history stays legal, with an
arbitrary script of everybody else's actions run in between, so the theorems hold
of the code.

## The files

| file | what it models |
|---|---|
| `Base.dfy` | shared values, and the fence whose loss is permanent |
| `Protocol.dfy`, `ProtocolSafety.dfy` | the disposition protocol of any number of Hosts, and its safety |
| `World.dfy`, `Applier.dfy`, `Bodies.dfy` | the disposition applier inside that protocol, and the checks of a private body |
| `Attestation.dfy`, `Processors.dfy`, `Consumer.dfy`, `PassGate.dfy` | what the durable cursor attests; either applier as Processor; one ordered pass in that system; halts, resumes and the drain's latch |
| `Teardown.dfy` | graceful release and abandon of one runtime |
| `Gates.dfy` | the gate publisher's fold and its convergence |
| `Recovery.dfy`, `Legacy.dfy`, `LegacyApplier.dfy` | the legacy recovery decision, the protocol around it, and the applier that carries it out |
| `LivePump.dfy`, `TokenBucket.dfy`, `JournalCache.dfy` | the live queue, the transient-byte budget, the mapping cache |
| `Lifecycle.dfy`, `Release.dfy` | start, attach, drain and disposal; the release of one residency |

## What the environment is taken to do

- The command store is a revisioned compare-and-swap record with the edge rules
  its interface states (internal/commands/disposition.go:253-279,
  internal/commands/apply.go:476-503). Any write may commit and lose its
  acknowledgement. The legacy store model checks no evidence on a rejection or a
  completion, which is less than the interface promises.
- The runtime journal admits one writer, the latest grant; earlier writers are
  refused (department/definition.go:569-627).
- A listing is true and complete up to its last record
  (internal/commands/consumer.go:147-156); the cursor store refuses a lower epoch
  and a lower order.
- Nobody else writes a session's gate projection while its publisher holds it. A
  successor's write between two passes is noticed by the publisher's next own write, and
  a clean pass makes none.
- A lost grant stays lost; it may be lost between any check and the write after it.
- Any read may fail and any answer may be lost. What a Host's own calls were answered is
  kept in order, and each refusal and each error is explained against that record, so an
  operation may not refuse where nothing failed.
- Clocks, minted identities, decoding, hashing, and the answers of object and gate
  reads are parameters.

## Where the code does not do what its words say

- `Halt` answering nil does not by itself silence the consumer: a `Resume` that runs
  while `Halt` waits out a pass clears the flag first
  (internal/commands/consumer.go:679-699). A halt that nobody resumes while it waits
  does: `PassGate.HaltSilences`; the consumer is quiet as it returns exactly when some
  setting of the flag has not been resumed since: `PassGate.QuietExactlyWhenUnresumed`,
  `PassGate.UnflaggedHaltSilencesNothing`, and a run that gets there,
  `PassGate.ResumeUnderAWaitingHalt`. The drain's latched halt is not affected.
- That each destructive step runs once, whoever asks for it
  (internal/compose/session.go:66-79), fails in two ways. `trackResident` puts the
  residency in the table before it asks for the warm watch, and a refused watch
  (internal/compose/adapters.go:436-447) leaves the Manager to roll the attach back past
  the shared guards, while a drain or give-up that took the residency in between gives
  everything back through them as well: `Release.RefusedWatchReleasesTwice`. And a warm
  release whose tombstone fails never reaches the heartbeat's step
  (internal/compose/session.go:525-530, internal/residency/warm.go:801-820):
  `Release.FailedTombstoneLeavesHeartbeat`; the heartbeat composed today also ends its
  loop as it writes the tombstone (internal/residency/heartbeat.go:512-513), which the
  step's contract does not promise. The grant, and the workspace if the agent requires
  one, are given back exactly once if and only if the first does not happen; the
  heartbeat's step is run exactly once if and only if, besides, some path was not such a
  warm release: `Release.GivenBackExactlyOnce`.
- "The next release checkpoints again" (internal/compose/session.go:480-521) is true of a
  release whose Checkpoint takes the latch after the progress was forgotten, by the
  take-back or, for a release left held, by the recording of its outcome
  (internal/compose/adapters.go:613-620): `Checkpointing.SavesAgainAfterForgetting`. A
  drain beside the warm release whose Checkpoint comes before either passes on the
  earlier checkpoint: `Checkpointing.OverlappingDrainMayFinishStale`,
  `Checkpointing.DrainAheadOfTheClearingMayFinishStale`. A Checkpoint saves again exactly
  when none has succeeded since progress was last forgotten:
  `Checkpointing.SavesExactlyWhenNoneStands`.
- The warm release credits the admission ledger itself
  (internal/residency/warm.go:816) and not through the residency's shared step, so a
  later `creditAdmission` reports a failure although the charge was credited:
  `Release.WarmCreditBypassesTheAuthority`, with the exact condition in
  `Release.CreditSucceedsExactlyWhenFirst`.
- `SupersedingEpoch` is documented as fencing a writer "at or below" it; `fences` is
  strict (internal/commands/apply.go:352-372), and rightly: a Host is fenced out exactly
  when its epoch is strictly below, `Legacy.FencedExactlyBelow`, and the writer at that
  epoch goes on appending, `Legacy.WriterAtTheFenceAppends`.

## Model

| member | source | states |
|---|---|---|
| `ProtocolSafety.ReachableInv` | internal/commands/disposition_applier.go:204-431 | the protocol invariant holds in every reachable state of any number of Hosts, passes and crashes |
| `ProtocolSafety.AtMostOneAttempt` | internal/commands/disposition_applier.go:346-431 | over every run a command is given at most one durable attempt, whoever asks |
| `ProtocolSafety.PermitOrigin` | internal/commands/disposition_applier.go:346-431 | a Host may drive, or close, only on an acknowledged answer it was itself given and has not spent since |
| `ProtocolSafety.DrivenOnceAsAuthorized` | internal/commands/disposition_applier.go:730-764 | the runtime is driven at most once per command, by the Host whose attempt was recorded and with that attempt's identity, which the record names ever after |
| `ProtocolSafety.EvidenceIsSettleable` | internal/commands/disposition_applier.go:766-803 | in every reachable state, evidence of an applying record's attempt can be settled by any Host no later residency has superseded |
| `ProtocolSafety.CloserOnlyAfterFailedSettlement` | internal/commands/disposition_applier.go:836-912 | a Host may call the closer, whatever it answers, only after its own settlement failed for the cause it names; if there was evidence, the store was not reached, the Host's fence was lost, the record was settled and the answer lost, or a later residency holds the claim |
| `ProtocolSafety.ClosureIsLastResort` | department/definition.go:569-627 | a closure is written only on such a call, under a grant strictly later than the attempt's, over a journal with neither an effect nor a disposition of the command |
| `ProtocolSafety.ClosedNeverTakesEffect` | department/definition.go:569-627 | once an attempt is closed, no effect or disposition of its command is in the journal in that or any later state, and it is never applied |
| `ProtocolSafety.SettledExactlyAsDisposed` | internal/commands/disposition_applier.go:766-803 | after an attempt, applied iff the runtime disposed it so, rejected iff it refused it or a successor closed it |
| `ProtocolSafety.RejectionPrecludesAttempt` | internal/commands/disposition_applier.go:711-728 | a Host's rejection is of a claimed record with no attempt; no attempt ever precedes or follows it and the runtime is never driven |
| `ProtocolSafety.WrittenUnderOwnClaim` | internal/commands/disposition.go:260-278 | over every history an attempt is begun, and a command rejected by a Host, only under that Host's own live claim that nobody took over since; a claim is taken over only by a later residency or by its own once lapsed; no residency earlier than the claim's settles the command |
| `ProtocolSafety.GrantsAscend` | department/definition.go:569-627 | every journal grant is later than all before it |
| `World.World.ClaimDisposition` | internal/commands/disposition.go:260-264 | a claim that is answered leaves the record claimed by this Host at the answered revision, with any interference before it and a possible lost acknowledgement |
| `World.World.BeginAttempt` | internal/commands/disposition.go:266-270 | an acknowledged attempt is recorded under this Host's grant and residency, and only then may it drive |
| `World.World.SettleEdge` | internal/commands/disposition.go:272-274 | once reached, the store's edge answers a terminal record as it stands or the evidence's verdict; with evidence only a lost answer or a later residency keeps it from answering |
| `World.World.SettleDisposition` | internal/commands/disposition.go:272-274 | a settlement that reaches the store, is acknowledged and is not superseded settles whenever there is evidence; a failed one names its cause and leaves the record to a closure |
| `World.World.RejectDisposition` | internal/commands/disposition.go:276-278 | an acknowledged rejection leaves the record rejected |
| `World.World.CloseAttempt` | department/definition.go:569-627 | a closure that succeeds leaves the attempt disposed or closed in the journal |
| `World.World.ApplyCommand` | internal/commands/disposition_applier.go:730-764 | the runtime is driven for the command with the permit's attempt, which is spent by it |
| `Applier.DispositionApplier.Process` | internal/commands/disposition_applier.go:204-264 | every step it takes is one the protocol allows; no refusal means the record the page named is terminal in the store in the state answered; every refusal is explained by what this very call was answered: a record that does not fit, a named fault of the store, the fence, the grant, the runtime or the closer, a body this Host may not dispatch, or its own attempt on which the runtime is silent; a durable attempt is reported as an owned prefix |
| `Applier.DispositionApplier.ClaimThenDispatch` | internal/commands/disposition_applier.go:323-338 | the same promise for a claim first taken through the fence; a claim is refused only for a changed record, a later residency's claim or a store fault |
| `Applier.DispositionApplier.AuthorizeAndDispatch` | internal/commands/disposition_applier.go:346-431 | the same promise for vetting a claimed command: blocked exactly as vetted, rejected if no Host could apply it, and otherwise dispatched with its vetted body |
| `Applier.DispositionApplier.RejectCommand` | internal/commands/disposition_applier.go:711-728 | the same promise for the Host's own rejection, which only the fence, a store fault, a changed record or a lapsed claim can keep from landing |
| `Applier.DispositionApplier.DispatchAndSettle` | internal/commands/disposition_applier.go:730-764 | the runtime is driven once with the recorded attempt and the vetted body, and the command settled from evidence; a refusal is the runtime's answer or the failed settlement's |
| `Applier.DispositionApplier.AfterFailedDispatch` | internal/commands/disposition_applier.go:557-577 | the evidence is read before the failure is reported; a command is reported stranded if and only if nothing settled it, the call was not cancelled, and it is no gate answer the runtime took |
| `Applier.DispositionApplier.SettleOnce` | internal/commands/disposition_applier.go:766-803 | a settlement answers a terminal state the store holds, or refuses with its cause: a lost fence only when the fence is lost, no evidence only when there is none |
| `Applier.DispositionApplier.SettleOrRecover` | internal/commands/disposition_applier.go:836-869 | an applying record is settled from evidence first; a refusal under a strictly later grant than its attempt's means the closer was asked for that attempt in this very call, or there is none, and that it declined or a real fault met the settlement after it; this Host's own attempt is never closed |
| `Applier.DispositionApplier.Recover` | internal/commands/disposition_applier.go:850-869 | after a failed settlement under a strictly later grant, the closer is asked for the attempt whenever there is one, and the command settled from the closure; then only a real fault refuses |
| `Applier.DispositionApplier.CloseStranded` | internal/commands/disposition_applier.go:871-912 | no problem iff the closer succeeded, and then the attempt is disposed or closed in the journal; any other answer is refused as named |
| `Applier.DispositionApplier.SettleThenRecover` | internal/commands/disposition_applier.go:859-869 | the settlement comes first, then the grant's comparison, then the closer; which of them refused is named |
| `Applier.DispositionApplier.Authorize` | internal/commands/disposition_applier.go:394-431 | one attempt recorded through the fence, refused only by the fence, a store fault, a changed record or a lapsed claim |
| `Applier.RefusedWithoutFault` | internal/commands/disposition_applier.go:204-264 | with no fault in a call, a fitting record is refused only for a body this Host may not dispatch or because the runtime it gave the command is silent; a predecessor's attempt never is |
| `Bodies.ResolvedExactlyWhenIntact` | internal/commands/disposition_applier.go:435-516 | a reference resolves to a body iff it is the whole object, of exactly the declared size within the bound and the declared digest, and every read succeeded |
| `Bodies.DispatchedExactlyWhenVetted` | internal/commands/disposition_applier.go:580-709 | a body is dispatched if and only if it is the command's own, whole, readable and, for a gate answer, this residency owns the gate and the version does not differ |
| `Bodies.RejectedExactlyWhenHopeless` | internal/commands/disposition_applier.go:355-376 | for every kind and payload, rejected iff no Host could ever apply it: two forms at once, an object that is provably not the declared one, malformed, an unresolved gate reference, or an owned open gate at another version |
| `Bodies.BlockedExactlyWhenHindered` | internal/commands/disposition_applier.go:580-709 | for every kind, payload and refusal, blocked with that refusal iff the limit of this Host or the passing fault it names stands in the way |
| `Bodies.DereferencedExactly` | internal/commands/disposition_applier.go:435-516 | a dereference is bad iff the answers prove the object is not the declared one, and a fault iff nothing read is wrong and the first failed read may succeed later |
| `Bodies.NamedExactly` | internal/commands/disposition_applier.go:463-467 | a reference names an object iff it starts as a command payload's does and ends in the declared digest's digits |
| `Bodies.DecisionSurvivesRetry` | internal/commands/disposition_applier.go:435-556 | a rejection or a dispatch is never changed by retrying reads that failed transiently |
| `Consumer.CheckRecord` | internal/commands/consumer.go:1028-1088 | no problem iff the page may go on with the record; otherwise the problem named is the record's |
| `Consumer.ValidatePage` | internal/commands/consumer.go:1010-1090 | accepts a page iff it conforms, and otherwise names the first record that breaks it and how |
| `Consumer.UnfinishedAscends` | internal/commands/consumer.go:874-944 | the commands a pass hands over strictly ascend in acceptance order, above its cursor |
| `Attestation.AttestRow` | internal/commands/consumer.go:874-944 | passing one more terminal record of a complete listing extends the attested prefix to it |
| `Consumer.FullPageAdvances` | internal/commands/consumer.go:945-967 | a full page's last order is at least a batch past the cursor |
| `Consumer.Consumer.LoadCursor` | internal/commands/consumer.go:970-1005 | a cursor that went backwards is refused, and only that or an unanswered read is an error; the held one never decreases nor passes the durable one |
| `Consumer.Consumer.Reconcile` | internal/commands/consumer.go:839-967 | one pass with either applier: hands over the unfinished part of one conforming page, all of it unless the Processor balked at a command or the pass met an error that is owed to its named cause; the cursor is then where it got to; nothing when halted; at most one cursor write, none when aborted and none over a swallowed completion; More iff a full page was consumed whole |
| `Consumer.Consumer.ConsumeRecord` | internal/commands/consumer.go:874-920 | a terminal record is passed without a call; otherwise the pass moves as the Processor's own answer lets it, blocks only on that answer, and stops only when cancelled or fenced |
| `Consumer.Consumer.Hand` | internal/commands/consumer.go:901-932 | the Processor is called once; its answer is consumed iff it is silent and terminal or prefix-owned, and then moves the pass by one record of the shared ledger; everyone else runs meanwhile |
| `Consumer.Consumer.Record` | internal/commands/consumer.go:901-932 | an answer that keeps its applier's promise is a step the shared ledger allows |
| `Consumer.Consumer.Conclude` | internal/commands/consumer.go:933-944 | one fenced save when the pass moved on, refused only by the fence or the store; none after a swallowed completion, because the same fence refuses it |
| `Consumer.Consumer.Save` | internal/commands/consumer.go:933-944 | the held cursor moves only on an acknowledged save |
| `Consumer.Consumer.CursorAttests` | internal/commands/consumer.go:839-944 | every command at or below the durable cursor is terminal in the Processor's own store, whichever Host wrote the cursor |
| `Processors.Station.Process` | internal/commands/apply.go:853-905 | whichever applier answers keeps its promise to the consumer, explains its refusal by what it was answered, and nothing terminal in its store is undone |
| `Consumer.Consumer.Continue` | internal/commands/consumer.go:744-791 | n passes reporting More move the cursor n batches towards the last accepted order; the continuation stops only at its bound or after a pass that was halted, short of a full page, balked at or failed for a named cause |
| `Attestation.ReachableInv` | internal/commands/consumer.go:839-944 | the cursor invariant holds in every reachable state of any number of Hosts |
| `Attestation.CursorAttests` | internal/commands/consumer.go:874-944 | over every interleaving of Hosts with either applier, every command at or below the durable cursor is terminal in every reachable state |
| `Attestation.CursorNeverRetreats` | internal/commands/consumer.go:933-944 | over every interleaving the durable cursor never goes back, and once a later Host wrote it no earlier one does |
| `Attestation.BalkedPassEnds` | internal/commands/consumer.go:901-932 | a pass that balked at a command passes no later one; its Host goes on only from a page listed anew |
| `Attestation.SwallowedUnderALostGrant` | internal/commands/apply.go:1273-1296 | only a legacy Processor whose grant is gone has a command consumed on an owned prefix alone |
| `Attestation.SwallowedNeverSaves` | internal/commands/apply.go:1273-1296 | the prefix-owned arm never durably moves the cursor: its Host never writes it again |
| `PassGate.FlagExactly` | internal/commands/consumer.go:679-699 | in every reachable state the flag is set iff some setting of it has not been cleared since |
| `PassGate.HaltSilences` | internal/commands/consumer.go:679-699 | after a Halt that nobody resumes while it waits, no pass calls the Processor until a Resume takes effect |
| `PassGate.QuietExactlyWhenUnresumed` | internal/commands/consumer.go:679-699 | as a Halt returns the consumer is quiet iff some setting of the flag has not been resumed since |
| `PassGate.UnflaggedHaltSilencesNothing` | internal/commands/consumer.go:679-699 | from every state where the flag was cleared meanwhile, a pass runs with no further Resume |
| `PassGate.ResumeUnderAWaitingHalt` | internal/commands/consumer.go:679-699 | such a state is reachable |
| `PassGate.LatchHolds` | internal/compose/workstates.go:233-261 | from the drain's latch on, no Resume of a tracked resident takes effect |
| `PassGate.DrainHaltStays` | internal/compose/workstates.go:252-261 | the drain's halt flag stays set, also while the drain still waits out a pass |
| `PassGate.DrainSilences` | internal/compose/workstates.go:252-261 | once the drain's halt answers nil no pass of the tracked session calls the Processor |
| `Teardown.Machine.Release` | internal/compose/teardown.go:150-176 | release answers released at once, or joins the latest flight, which it starts from resident and from nowhere else, following a graceful one into its hand-over; one call at a time |
| `Teardown.Machine.AbandonOnce` | internal/compose/teardown.go:181-206 | abandon starts its call from resident, makes a running release owe it, and otherwise joins the latest flight; from its first decision on the runtime is never left resident |
| `Teardown.Machine.Complete` | internal/compose/teardown.go:230-260 | a flight's outcome and hand-over are written once; resident again iff a graceful call failed with the runtime up and no abandon owed, abandoning iff one was owed, with or without its waiter; released iff it succeeded, with exactly the kept callbacks |
| `Teardown.Machine.WhenReleased` | internal/compose/teardown.go:135-148 | a callback is run now or kept for the release, exactly one of the two |
| `Teardown.OneCallAtATime` | internal/compose/teardown.go:211-260 | in every reachable state at most one call is in flight, at most one abandon was made, and a pending abandon exists only while a graceful flight runs |
| `Teardown.NoCallAfterTheEnd` | internal/compose/teardown.go:230-260 | after a success or a terminal failure no call is ever made and the end does not change |
| `Teardown.AbandonDominates` | internal/compose/teardown.go:181-206 | after an abandon took the lock no graceful release is elected, and the abandon is started when the running one fails, waited for or not, unless it released or tore down |
| `Teardown.AbandonDecidesAtMostTwice` | internal/compose/teardown.go:181-206 | abandon's loop re-decides at most once |
| `Teardown.CallJoinsLatest` | internal/compose/teardown.go:154-206 | a call finds the runtime released, or joins the machine's latest flight, which it may have started |
| `Teardown.AnswersAreTheFlights` | internal/compose/teardown.go:263-282 | over every history, a caller of release or abandon is answered from the abandon exactly when the flight its call joined failed and handed over to it, and otherwise from the flight it joined, whatever flies later; nil means released; an abandon is told a graceful failure only if the runtime is down |
| `Teardown.CallbacksExactlyWhenReleased` | internal/compose/teardown.go:135-148 | each callback runs at most once and only when released; once released each is run or due exactly once |
| `Gates.FoldMeansOpen` | internal/gates/gates.go:396-411 | a gate is open in the fold iff it was opened and neither resolved nor reopened since, at the sequence that opened it |
| `Gates.FoldPrefix` | internal/gates/gates.go:396-411 | appending to the journal changes no earlier fold |
| `Gates.NextSplits` | internal/gates/gates.go:396-411 | reading on from `next` visits exactly the entries not yet folded |
| `Gates.FoldDistinct` | internal/gates/gates.go:440-450 | no two open gates share a sequence, so oldest first is a total order |
| `Gates.Publisher.FoldJournal` | internal/gates/gates.go:396-411 | wherever a replay is interrupted and resumed, the open set equals a fresh fold to its position |
| `Gates.Publisher.Visit` | internal/gates/gates.go:396-411 | one entry: the fold stays fresh and a gate event leaves the publisher dirty |
| `Gates.Publisher.Pending` | internal/gates/gates.go:430-450 | exactly the open, unprojected, publishable gates, oldest first |
| `Gates.Publisher.ResolveClosed` | internal/gates/gates.go:462-472 | resolves every closed gate and no open one, and tries each even if another fails |
| `Gates.Publisher.OpenPending` | internal/gates/gates.go:475-500 | a clean run opens a prefix of the pending gates and leaves the rest only for want of room; a gate is given up on only if the store can never project it; one failure keeps no other gate from being tried |
| `Gates.Publisher.Converge` | internal/gates/gates.go:421-500 | on success nothing closed is projected, and every open gate the store could ever project is, or the projection is full with its new gates the oldest; it fails only for a read cut short or a write that failed; whatever happens no projected open gate is touched |
| `Gates.Publisher.ConvergeIfDirty` | internal/gates/gates.go:377-391 | clean only after a successful convergence; a failure stays dirty |
| `Gates.Publisher.Pass` | internal/gates/gates.go:359-393 | a pass without error leaves the projection converged on a fresh fold of the whole journal, however often it was full before; no gate is written before the fencing write succeeded; it fails only for a read cut short or a failed write |
| `Gates.Publisher.TakeOver` | internal/gates/gates.go:367-372 | the fencing write is made until it succeeds, and a superseded one ends the pass |
| `Gates.Publisher.Run` | internal/gates/gates.go:289-340 | over any appends between passes, each good pass leaves nothing out beside a free place; with no read cut short and no write failed none fails; a superseded pass is the last and the write refused for it the last write |
| `Recovery.RejectedExactlyWhenProved` | internal/commands/recovery.go:75-255 | a rejection is chosen iff a predecessor's lapsed application provably had no effect and its writer is fenced |
| `Recovery.CompletedExactlyWhenCommitted` | internal/commands/recovery.go:75-135 | a completion is chosen iff the record is applying and the effect committed, whatever the clock and claim |
| `Recovery.RedrivenExactlyWhenOwn` | internal/commands/recovery.go:214-236 | a re-drive is chosen iff the applying record is this applier's own and nothing committed |
| `Recovery.AppliedExactlyUnderOwnClaim` | internal/commands/recovery.go:136-255 | a record not yet applying is applied iff this applier's own claim on it is live |
| `Recovery.ClaimedExactlyWhenUnclaimed` | internal/commands/recovery.go:136-255 | it is claimed first iff no claim is live, its kind is supported and its deadline is ahead |
| `Recovery.RefusedExactlyWhenObstructed` | internal/commands/recovery.go:75-255 | for every refusal, it is answered iff what it names stands in the way |
| `Recovery.NoEffectGuardIsImplied` | internal/commands/recovery.go:237-244 | the deleted no-effect guard's arm is unreachable for every record and evidence |
| `Recovery.ClaimGuardsAreImplied` | internal/commands/recovery.go:136-190 | the other two deleted guards change no decision iff a live expiry implies a claim, which every record the store writes satisfies |
| `Legacy.WalkMeans` | internal/commands/apply.go:290-358 | what the journal proves of a command's last prefix is decided by the entry right after it |
| `Legacy.WalkRuntime` | internal/commands/apply.go:318-322 | a prefix under another runtime identity is a conflict whatever follows |
| `Legacy.SupersedingIsHighest` | internal/commands/apply.go:346-358 | the superseding epoch is the highest opening fence of the journal, whatever their order |
| `Legacy.DecidedMemory` | internal/commands/recovery.go:75-255 | a decision on a stale record and the current journal licenses only what is safe |
| `Legacy.ReachableInv` | internal/commands/apply.go:853-1330 | the legacy invariant holds in every reachable state of any number of Hosts |
| `Legacy.RejectedNeverTakesEffect` | internal/commands/apply.go:1298-1330 | a rejected command has no committed effect then or in any later state |
| `Legacy.AppliedNamesItsEffect` | internal/commands/apply.go:1273-1296 | an applied record names the public event right after its own prefix, both appended under its claim's epoch |
| `Legacy.FencedExactlyBelow` | internal/commands/apply.go:352-372 | a living Host is fenced out in every continuation iff its epoch is strictly below some opening fence of the journal |
| `Legacy.WriterAtTheFenceAppends` | internal/commands/apply.go:352-372 | a run in which the writer at the highest fence goes on appending |
| `Legacy.EnteredUnderOwnClaim` | internal/commands/apply.go:476-492 | over every history applying is entered only under the Host's own claim, taken before the deadline, live and taken over by nobody since; a claim is taken over only by a later epoch or by its own once lapsed |
| `Legacy.DrivenOnceAfterThePrefix` | internal/commands/apply.go:1057-1140 | at most one prefix is appended and the runtime driven at most once, after it, by the claim's holder |
| `Legacy.GuardsNeverMatter` | internal/commands/recovery.go:136-244 | at every decision of every run the deleted guards would have decided the same |
| `LegacyApplier.Applier.Process` | internal/commands/apply.go:853-905 | every step is one the protocol allows; no refusal means terminal in the store as decided, or the effect committed and the grant gone; every refusal is explained by what this very call was answered |
| `LegacyApplier.Applier.Carry` | internal/commands/apply.go:887-905 | the decided step is carried out: rejected iff decided so, completed or driven otherwise, and refused only for the fault it names |
| `LegacyApplier.Applier.ClaimThenApply` | internal/commands/apply.go:958-978 | a claim is refused only for a changed record, one the store's clock no longer lets be claimed, the fence or a store fault |
| `LegacyApplier.Applier.ApplyClaimed` | internal/commands/apply.go:985-1034 | the same promise for entering applying under a held claim: rejected iff the gate is no longer resumable, else driven, refused only for its payload, its gate's reader, the fence or a named fault |
| `LegacyApplier.Applier.DriveWithPayload` | internal/commands/apply.go:1057-1140 | prefix, fence, runtime and evidence, in that order; a refusal names the one that failed, and it never rejects |
| `LegacyApplier.Applier.Finish` | internal/commands/apply.go:1273-1296 | a completion that did not land is silent only when the fence is lost, and refused only for a store fault, a changed record or an effect that names no event |
| `LegacyApplier.Applier.Reject` | internal/commands/apply.go:1306-1330 | no refusal means the store holds the rejection; only the fence, a store fault or a changed record refuses it |
| `LivePump.Pump.Send` | harnessruntime/session.go:257-271 | takes the queue's first; a terminal leaves it empty |
| `LivePump.Pump.Receive` | harnessruntime/session.go:272-332 | a transient is queued iff the reader opted in to it, its text is within the size bound, it projects and its class has room, and is otherwise dropped and counted; it stops iff the source ended or the enduring class is full |
| `LivePump.Pump.Run` | harnessruntime/session.go:247-334 | takes every turn of the schedule up to the first that ends it; emitted and queued enduring publications are the committed deliveries read, in order; every preview sent or queued is of a delivery the options allow; the queue is bounded; ephemeral read = sent + pending + drops; a terminal is last |
| `LivePump.QueueLength` | harnessruntime/session.go:247-260 | the queue is no longer than its two classes and one last terminal |
| `TokenBucket.EarnedExactlyAllowed` | internal/realtime/hostlink/ephemeral_budget.go:36-49 | the refilled level admits a frame iff no window would be overfilled |
| `TokenBucket.ChargedLevel` | internal/realtime/hostlink/ephemeral_budget.go:50-53 | after a charge the level is still what the tightest window leaves |
| `TokenBucket.Budget.Admit` | internal/realtime/hostlink/ephemeral_budget.go:28-55 | a frame is admitted iff it fits every window of every recipient; then all are charged once, else nothing changes |
| `TokenBucket.Budget.Forget` | internal/realtime/hostlink/ephemeral_budget.go:57-61 | forgets one client and no other |
| `TokenBucket.Budget.AnyWindow` | internal/realtime/hostlink/ephemeral_budget.go:28-55 | of every client of a budget, the bytes admitted in any window since it was forgotten are at most burst + rate x window |
| `TokenBucket.SeenSteady` | internal/realtime/hostlink/ephemeral_budget.go:39-44 | on a clock that does not step back, windows are measured by the admissions' own instants |
| `TokenBucket.AcceptedExactly` | compose.go:597-613 | validation accepts exactly limits with burst + 30 x rate below the queue and a burst for one frame; the defaults are accepted |
| `TokenBucket.Budget.QueueNeverFilled` | compose.go:597-613 | under accepted limits no client of the budget is charged a queue's worth in 30 seconds |
| `JournalCache.MostRecentIsUnique` | public_journal.go:208-223 | there is one set of most recently requested keys, so eviction's scan order is irrelevant |
| `JournalCache.MissWhenFull` | public_journal.go:214-224 | replacing the least recently used key keeps exactly the most recent ones |
| `JournalCache.PublicJournals.Oldest` | public_journal.go:215-221 | finds the least recently used key in any scan order |
| `JournalCache.PublicJournals.ReaderFor` | public_journal.go:188-226 | holds exactly the `capacity` most recently requested keys; keeps a mapping and reads it through the newest reader |
| `Lifecycle.Service.Start` | internal/compose/compose.go:544-558 | a start proceeds iff the Host is not started, stopped, starting, draining or disposed, and then shuts disposal out |
| `Lifecycle.Service.Attach` | internal/compose/compose.go:703-722 | an attach enters iff the Host is started and not disposed, under an identity never in use, and shuts disposal out; a refused one changes nothing |
| `Lifecycle.Service.TrackResident` | internal/compose/adapters.go:411-449 | a session becomes resident iff its attach was not cancelled and the Host is not draining; a draining Host's sessions only shrink |
| `Lifecycle.Service.StartDrain` | internal/compose/compose.go:906-923 | a drain begins iff the Host is started, not starting and not disposed; it then shuts disposal out and has every resident session in front of it; a refused one changes nothing |
| `Lifecycle.Service.CloseUnstarted` | internal/compose/compose.go:868-880 | a disposal begins iff the Host is quiet; disposed always means quiet, and the cleanup has begun once |
| `Lifecycle.NoResidentOnceDraining` | internal/compose/adapters.go:411-449 | once draining, every session held later was already held under that generation |
| `Lifecycle.DrainLeavesNothing` | internal/compose/compose.go:1027-1086 | after snapshot and wait, every session held is in the snapshot and every attach in flight entered later |
| `Lifecycle.StopsWithNothingLeft` | internal/compose/compose.go:1027-1086 | over every history a drain stops the Host only after its snapshot and then its wait: every session still held was in the snapshot, every attach in flight entered after the wait began |
| `Lifecycle.DisposalExcludes` | internal/compose/compose.go:868-899 | a disposed Host is and stays not started, starting, draining, stopped, attaching or resident |
| `Lifecycle.CleanupBeginsOnce` | internal/compose/compose.go:868-899 | owned-store cleanup begins exactly once on a disposed Host and never on another |
| `Lifecycle.CleanupResultIsShared` | internal/compose/compose.go:868-899 | every answered waiter gets the same result |
| `Lifecycle.EndNeverForgetsSuccessor` | internal/compose/adapters.go:825-872 | however late a residency's end is recorded, it removes no session once a successor was tracked under the key |
| `Lifecycle.Service.Forget` | internal/compose/adapters.go:825-838 | ends the one residency named and no other |
| `Release.SharedOnce.Run` | internal/compose/session.go:240-249 | runs once; every caller gets that run's outcome |
| `Release.OnceOnSuccess.Run` | internal/compose/session.go:152-172 | runs until it succeeds once |
| `Release.ForgetReleaseProgress` | internal/compose/session.go:515-521 | clears every latch it is given |
| `Release.WithoutLostGrant` | internal/compose/adapters.go:789-803 | reports nothing iff no outcome is a genuine failure |
| `Release.Resident.DrainFinishRelease` | internal/compose/session.go:422-450 | all four steps are reached, each shared one keeping its first outcome; it fails iff one genuinely failed, an expected lost-grant refusal apart |
| `Release.Resident.WarmFinishRelease` | internal/compose/session.go:525-530 | a failed tombstone stops it and is its answer; otherwise it answers the heartbeat's shared outcome |
| `Release.Resident.AbortRelease` | internal/compose/session.go:488-501 | refused once work stopped; otherwise both latches are clear |
| `Release.SharedAtMostOnce` | internal/compose/session.go:236-317 | through the shared guards each holding is given back at most once over every interleaving |
| `Release.GivenBackOnce` | internal/compose/session.go:236-317 | no holding is given back twice, by any path, unless the warm watch refused a committed residency that another path gives back as well |
| `Release.GivenBackExactlyOnce` | internal/compose/session.go:236-317 | once a residency is over, grant and workspace were each given back exactly once iff that did not happen, and the heartbeat's step was run exactly once iff, besides, the Manager or some path but a warm release with a failed tombstone ran it; twice in the first case, zero times when nobody did |
| `Release.FailedTombstoneLeavesHeartbeat` | internal/compose/session.go:525-530 | a run in which a warm release's failed tombstone leaves the heartbeat's step unrun |
| `Release.RefusedWatchReleasesTwice` | internal/compose/adapters.go:436-447 | a run in which a drain's snapshot and the refused watch's rollback both give everything back |
| `Release.OneOutcomeForAll` | internal/compose/session.go:236-317 | every caller, early or late, is told that run's outcome |
| `Release.RollbackCompensates` | internal/compose/adapters.go:126-150 | an ended rollback through the authority has run the step of everything the attach took and of the charge, which is out of the ledger |
| `Release.CreditSucceedsExactlyWhenFirst` | internal/compose/session.go:304-317 | the shared credit succeeds iff no warm credit, successor's claim or rollback by the Manager came before it ran |
| `Release.WarmCreditBypassesTheAuthority` | internal/residency/warm.go:801-820 | a run in which the charge was credited and the shared credit reports a failure |
| `Checkpointing.FinishedCoversForgotten` | internal/compose/session.go:488-521 | a finished release's checkpoint holds all work done by any take-back, and by any held release's clearing, its Checkpoint came after |
| `Checkpointing.SavesExactlyWhenNoneStands` | internal/compose/session.go:152-172 | a Checkpoint saves again iff none succeeded since progress was last forgotten, by a take-back or a held release's clearing |
| `Checkpointing.SavesAgainAfterForgetting` | internal/compose/adapters.go:613-620 | after a take-back or a held release's clearing, every Checkpoint saves until one succeeds |
| `Checkpointing.OverlappingDrainMayFinishStale` | internal/compose/session.go:488-521 | a run in which a drain whose Checkpoint came before the take-back finishes with the work before it unsaved |
| `Checkpointing.DrainAheadOfTheClearingMayFinishStale` | internal/compose/adapters.go:613-620 | a run in which a drain whose Checkpoint came before a held release's clearing finishes with the work before it unsaved |

## Left out

- Liveness in real time: timers, retry intervals, goroutine scheduling and context deadlines are nondeterministic steps; nothing says that a wait ends.
- Disposition records scoped to another tenant or session, and durable states outside the five: the applier refuses them before anything else; they are only more refusals.
- JSON decoding of create, input, control and gate-response bodies: a three-way result. SHA-256, UUIDs and URL checks are functions or parameters.
- World.World.ClaimDisposition: does not model the store's apply deadline, because a claim it refuses is already a possible answer of the model.
- `residency.Manager`, `residency.Heartbeat`, `lifecycle.Drainer`, `service.CapacityPublisher` and the registry beyond the contracts used above.
- Processors.Station: does not model the legacy applier's commands as one store; each command's session is the whole journal and every Host seen from that record, so commands run independently.
- The legacy gate check's reads (gate lookup, owner, body): one three-way input of `LegacyApplier.Applier.Process`.
- The pure-committed `pump`, `ConfirmIdle`, `markActivity`, `flatten`, `Deadline` and `TTL`: only easy members.
- TokenBucket.Budget.AnyWindow: does not model floating-point rounding; on a clock that steps back, a window is measured by the latest instant the budget has seen.
- JournalCache.PublicJournals.ReaderFor: does not model the 64-bit wrap-around of the use clock.
- Gates.Publisher.Pass: does not model a successor's writes to the projection between two passes; a clean pass would not see them.
- Gates.Publisher.Run: does not model subscriptions and hints beyond the appends between passes.
- HostLink and HTTP transport, metrics, logging, option presence checks, `cmd/host`.
