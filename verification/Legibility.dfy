/** Every record in a file was checked when it was written, so a record read back can be
    written again. */
module Legibility {
  import opened Optional
  import opened Temporal
  import opened Disk
  import opened Protocol
  import opened Locks

  /** A process that is about to write a record has read it from a file. */
  predicate Carried(pc: Pc) {
    (pc.WriteMeta? || pc.RecoverWrite?) ==> ValidRecord(pc.record)
  }

  predicate AllLegible(s: System) {
    && Legible(s.world.disk)
    && (forall pc <- s.procs :: Carried(pc))
  }

  predicate LegibleMove(m: Move) {
    Legible(m.world.disk) && Carried(m.pc)
  }

  lemma RecoveringIsLegible(w: World, pid: nat, pc: Pc, o: Outcome)
    requires Legible(w.disk) && Carried(pc) && Recovering(pc)
    ensures LegibleMove(Advance(w, pid, pc, o))
  {
  }

  lemma PublishingIsLegible(w: World, pid: nat, pc: Pc, o: Outcome)
    requires Legible(w.disk) && Carried(pc) && Publishing(pc)
    ensures LegibleMove(Advance(w, pid, pc, o))
  {
  }

  lemma ApproachIsLegible(w: World, pid: nat, pc: Pc, o: Outcome)
    requires Legible(w.disk) && !Recovering(pc) && !Publishing(pc)
    ensures LegibleMove(Advance(w, pid, pc, o))
  {
  }

  lemma NextIsLegible(w: World, pc: Pc, e: Event)
    requires Legible(w.disk) && Carried(pc)
    ensures LegibleMove(Next(w, pc, e))
  {
    if e.Act? && !e.outcome.Crash? {
      if Recovering(pc) {
        RecoveringIsLegible(w, e.pid, pc, e.outcome);
      } else if Publishing(pc) {
        PublishingIsLegible(w, e.pid, pc, e.outcome);
      } else {
        ApproachIsLegible(w, e.pid, pc, e.outcome);
      }
    }
  }

  /** In every run each record on disk is one that the writer accepts. */
  lemma {:induction false} RunIsLegible(s: System, events: seq<Event>)
    requires Initial(s)
    ensures AllLegible(Run(s, events))
  {
    if events != [] {
      var before, e := Run(s, events[..|events| - 1]), events[|events| - 1];
      RunIsLegible(s, events[..|events| - 1]);
      if e.pid < |before.procs| {
        assert before.procs[e.pid] in before.procs;
        NextIsLegible(before.world, before.procs[e.pid], e);
      }
    }
  }
}
