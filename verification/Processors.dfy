/**
 The consumer's Processor: either applier, behind the one contract a pass relies
 on.
 */
module Processors {
  import opened Base
  import opened Fencing
  import Attestation
  import Applier
  import Legacy
  import LegacyApplier
  import ProtocolSafety

  /**
   The disposition applier over the whole session, or the legacy applier, whose sessions are kept command by
   command: each is the whole journal and every Host, seen from one record.
   */
  datatype Processor =
    | Disposition(applier: Applier.DispositionApplier)
    | PerCommand(appliers: map<CommandId, LegacyApplier.Applier>)

  datatype Standing = Fit(done: set<CommandId>) | Unfit

  /** One private call's inputs, for whichever applier takes it. */
  datatype Inputs = Inputs(disposition: Applier.Inputs, legacy: LegacyApplier.Inputs)

  /** This Host's Processor, and everything it acts on besides its fence. */
  class Station {
    const me: nat
    const fence: Fence
    const processor: Processor
    ghost const repr: set<object>

    /** Every command it was called for, and what it answered. */
    ghost var answered: seq<(Applier.Command, Attestation.Reply)>

    constructor (me: nat, fence: Fence, processor: Processor, ghost repr: set<object>)
      ensures this.me == me && this.fence == fence && this.processor == processor && this.repr == repr
      ensures answered == [] && this !in repr
    {
      this.me, this.fence, this.processor, this.repr, answered := me, fence, processor, repr, [];
    }

    function Kind(): Attestation.Processing {
      if processor.Disposition? then Attestation.ByDisposition else Attestation.ByLegacy
    }

    ghost predicate Valid()
      reads repr
    {
      && this !in repr
      && match processor
         case Disposition(a) => a in repr && a.world in repr && fence == a.fence && a.me == me && a.Ready()
         case PerCommand(m) => forall c :: c in m ==> Serves(m[c]) && Separate(m, c)
    }

    /** A refusal is the applier's own, explained by what the applier was answered in this call. */
    twostate predicate Explained(command: Applier.Command, inputs: Inputs)
      reads repr, fence
    {
      match processor
      case Disposition(a) => a in repr && a.world in repr && ExplainedBy(a, command, inputs.disposition)
      case PerCommand(m) =>
        command.id !in m || // the store does not know it
        (m[command.id].session in repr && ExplainedByLegacy(m[command.id], command, inputs.legacy))
    }

    twostate predicate ExplainedBy(a: Applier.DispositionApplier, command: Applier.Command, inputs: Applier.Inputs)
      reads a, a.world, fence
    {
      && |old(a.world.log)| < |a.world.log| && me in a.world.st.hosts
      && exists why :: Applier.Explained(command, inputs, a.world.log, |old(a.world.log)|, fence.lost, me,
                         a.hasCloser, a.world.st.hosts[me].grant, why)
    }

    twostate predicate ExplainedByLegacy(a: LegacyApplier.Applier, command: Applier.Command,
        inputs: LegacyApplier.Inputs)
      reads a.session, fence
    {
      && |old(a.session.log)| < |a.session.log|
      && exists why :: LegacyApplier.Explained(a.session.log, |old(a.session.log)|, fence.lost, me, command.order,
                         inputs, why)
    }

    ghost predicate Serves(a: LegacyApplier.Applier)
      reads repr
    {
      a.session in repr && fence == a.fence && a.me == me && a.session.Holds(me, Legacy.Idle)
    }

    ghost predicate Separate(m: map<CommandId, LegacyApplier.Applier>, c: CommandId)
      requires c in m
    {
      forall d :: d in m && d != c ==> m[d].session != m[c].session
    }

    /** The commands terminal in its store. */
    function Done(): set<CommandId>
      requires Valid()
      reads repr
    {
      match processor
      case Disposition(a) => set c | c in a.world.st.records && Terminal(a.world.st.records[c].state)
      case PerCommand(m) => set c | c in m && Terminal(m[c].session.st.record.state)
    }

    /**
     Whether it may be called, and what is then terminal in its store: Valid and Done as one value, so that what carries
     it past other steps reasons by its frame alone and not by what they say of each applier.
     */
    ghost function Standing(): (r: Standing)
      ensures r.Fit? ==> Valid() && r.done == Done()
      reads repr
    {
      if Valid() then Fit(Done()) else Unfit
    }

    /**
     Processes one command.  Its answer keeps its applier's promise, a refusal is explained by what the applier was
     answered, and nothing terminal is undone.
     */
    method Process(command: Applier.Command, inputs: Inputs) returns (reply: Attestation.Reply)
      requires Standing().Fit? && inputs.disposition.readers.residency == me
      modifies this`answered, repr, fence
      ensures answered == old(answered) + [(command, reply)]
      ensures reply.refused ==> Explained(command, inputs)
      ensures Standing().Fit? && old(Done()) <= Done()
      ensures Attestation.Promised(Kind(), reply, command.id in Done(), fence.lost)
      ensures old(fence.lost) ==> fence.lost
    {
      reply := Call(command, inputs);
      answered := answered + [(command, reply)];
    }

    method Call(command: Applier.Command, inputs: Inputs) returns (reply: Attestation.Reply)
      requires Standing().Fit? && inputs.disposition.readers.residency == me
      modifies repr, fence
      ensures reply.refused ==> Explained(command, inputs)
      ensures Standing().Fit? && old(Done()) <= Done()
      ensures Attestation.Promised(Kind(), reply, command.id in Done(), fence.lost)
      ensures old(fence.lost) ==> fence.lost
    {
      match processor {
        case Disposition(a) => reply := ProcessDisposition(a, command, inputs.disposition);
        case PerCommand(m) => reply := ProcessLegacy(m, command, inputs.legacy);
      }
    }

    method ProcessDisposition(a: Applier.DispositionApplier, command: Applier.Command, inputs: Applier.Inputs)
      returns (reply: Attestation.Reply)
      requires Valid() && processor == Disposition(a) && inputs.readers.residency == me
      modifies a, a.world, a.fence
      ensures Valid() && old(Done()) <= Done()
      ensures Attestation.DispositionPromise(reply, command.id in Done())
      ensures reply.refused ==> ExplainedBy(a, command, inputs)
      ensures old(fence.lost) ==> fence.lost
    {
      ghost var before := a.world.st;
      var answer := a.Process(command, inputs);
      assert ProtocolSafety.Kept(before, a.world.st);
      reply := Attestation.Reply(answer.state, answer.prefixOwned, answer.refusal.Some?);
    }

    method ProcessLegacy(m: map<CommandId, LegacyApplier.Applier>, command: Applier.Command,
        inputs: LegacyApplier.Inputs)
      returns (reply: Attestation.Reply)
      requires Valid() && processor == PerCommand(m)
      modifies repr, fence
      ensures Valid() && old(Done()) <= Done()
      ensures Attestation.LegacyPromise(reply, command.id in Done(), fence.lost)
      ensures reply.refused && command.id in m ==> ExplainedByLegacy(m[command.id], command, inputs)
      ensures old(fence.lost) ==> fence.lost
    {
      if command.id !in m { return Attestation.Reply(command.state, false, true); } // the store does not know it
      var a := m[command.id];
      assert Serves(a) && Separate(m, command.id);
      ghost var before := a.session.history;
      var answer := a.Process(command.order, command.state, inputs);
      Legacy.ExtensionGrows(before, a.session.history);
      reply := Attestation.Reply(answer.state, answer.prefixOwned, answer.refusal.Some?);
    }
  }
}
