/** What each task achieves when nothing stands in its way: both locks are free, nobody else
    moves and every primitive succeeds. Safety says what a task never does; this says that it
    does its work. The end of each task is stated on the three files, without its program. */
module Unhindered {
  import opened Optional
  import opened Temporal
  import opened Disk
  import opened Protocol

  function Oks(n: nat): (outs: seq<Outcome>)
    ensures |outs| == n && forall o <- outs :: o.Ok?
  {
    seq(n, _ => Ok)
  }

  /** The process's next `n` primitives, all of them successful. */
  function Ahead(w: World, pid: nat, pc: Pc, n: nat): Move {
    Alone(w, pid, pc, Oks(n))
  }

  /** One primitive at a time, from the front. */
  lemma {:induction false} Onward(w: World, pid: nat, pc: Pc, n: nat)
    requires n > 0
    ensures
      var m := Advance(w, pid, pc, Ok);
      Ahead(w, pid, pc, n) == Ahead(m.world, pid, m.pc, n - 1)
  {
    assert Oks(n)[..n - 1] == Oks(n - 1);
    if n == 1 {
      assert Alone(w, pid, pc, Oks(0)) == Move(w, pc);
    } else {
      Onward(w, pid, pc, n - 1);
      assert Oks(n - 1)[..n - 2] == Oks(n - 2);
    }
  }

  /** The task is over: idle, both locks free, this disk, and so many recoveries. */
  predicate Ends(m: Move, disk: Disk, recoveries: nat) {
    && m.pc.Idle? && m.world.disk == disk && m.world.recoveries == recoveries
    && m.world.localityOwner.None? && m.world.policyOwner.None?
  }

  /** The locks that the process holds are the only ones held. */
  predicate Sole(w: World, pid: nat, locality: bool, policy: bool) {
    && w.localityOwner == (if locality then Some(pid) else None)
    && w.policyOwner == (if policy then Some(pid) else None)
  }

  lemma {:induction false} FromIdle(w: World, pid: nat, n: nat)
    requires Sole(w, pid, false, false)
    ensures Ends(Ahead(w, pid, Idle, n), w.disk, w.recoveries)
  {
    if n > 0 {
      Onward(w, pid, Idle, n);
      FromIdle(w, pid, n - 1);
    }
  }

  lemma FromUnlock(w: World, pid: nat, t: Task, locality: bool, policy: bool, n: nat)
    requires Sole(w, pid, locality, policy) && (locality || policy) && n >= 2
    ensures Ends(Ahead(w, pid, Unlock(t, locality, policy), n), w.disk, w.recoveries)
  {
    Onward(w, pid, Unlock(t, locality, policy), n);
    var m := Advance(w, pid, Unlock(t, locality, policy), Ok);
    if locality && policy {
      Onward(m.world, pid, m.pc, n - 1);
      FromIdle(Advance(m.world, pid, m.pc, Ok).world, pid, n - 2);
    } else {
      FromIdle(m.world, pid, n - 1);
    }
  }

  // ----- Recovery

  lemma FromRecoverDrop(w: World, pid: nat, n: nat)
    requires Sole(w, pid, true, false) && n >= 3
    ensures Ends(Ahead(w, pid, RecoverDrop, n), w.disk.(journal := Missing), w.recoveries + 1)
  {
    Onward(w, pid, RecoverDrop, n);
    FromUnlock(Advance(w, pid, RecoverDrop, Ok).world, pid, Recover, true, false, n - 1);
  }

  lemma FromRecoverWrite(w: World, pid: nat, record: Metadata, n: nat)
    requires Sole(w, pid, true, false) && n >= 4
    ensures Ends(Ahead(w, pid, RecoverWrite(record), n),
                 w.disk.(metadata := Doc(record), journal := Missing), w.recoveries + 1)
  {
    Onward(w, pid, RecoverWrite(record), n);
    FromRecoverDrop(Advance(w, pid, RecoverWrite(record), Ok).world, pid, n - 1);
  }

  lemma FromRecoverRead(w: World, pid: nat, n: nat)
    requires Sole(w, pid, true, false) && n >= 5 && w.disk.journal.Doc?
    ensures Ends(Ahead(w, pid, RecoverRead, n),
                 w.disk.(metadata := w.disk.journal, journal := Missing), w.recoveries + 1)
  {
    Onward(w, pid, RecoverRead, n);
    FromRecoverWrite(w, pid, w.disk.journal.value, n - 1);
  }

  lemma FromRecoverClear(w: World, pid: nat, n: nat)
    requires Sole(w, pid, true, false) && n >= 3
    ensures Ends(Ahead(w, pid, RecoverClear, n), w.disk.(metadata := Missing), w.recoveries + 1)
  {
    Onward(w, pid, RecoverClear, n);
    FromUnlock(Advance(w, pid, RecoverClear, Ok).world, pid, Recover, true, false, n - 1);
  }

  lemma FromRecoverDiscard(w: World, pid: nat, seen: Location, n: nat)
    requires Sole(w, pid, true, false) && n >= 4
    ensures Ends(Ahead(w, pid, RecoverDiscard(seen), n),
                 if seen.configured then w.disk.(journal := Missing)
                 else w.disk.(metadata := Missing, journal := Missing),
                 w.recoveries + 1)
  {
    Onward(w, pid, RecoverDiscard(seen), n);
    var m := Advance(w, pid, RecoverDiscard(seen), Ok);
    if seen.configured {
      FromUnlock(m.world, pid, Recover, true, false, n - 1);
    } else {
      FromRecoverClear(m.world, pid, n - 1);
    }
  }

  lemma FromRecoverJournal(w: World, pid: nat, n: nat)
    requires Sole(w, pid, true, false) && n >= 6
    ensures Ends(Ahead(w, pid, RecoverJournal(Effective(w.disk).place), n),
                 Recovered(w.disk), w.recoveries + 1)
  {
    var pc := RecoverJournal(Effective(w.disk).place);
    Onward(w, pid, pc, n);
    var m := Advance(w, pid, pc, Ok);
    if JournalMatches(w.disk) {
      FromRecoverRead(m.world, pid, n - 1);
    } else if w.disk.journal.Missing? {
      NothingLeftOver(w, pid, n - 1);
    } else {
      FromRecoverDiscard(m.world, pid, Effective(w.disk).place, n - 1);
    }
  }

  lemma NothingLeftOver(w: World, pid: nat, n: nat)
    requires Sole(w, pid, true, false) && n >= 3 && w.disk.journal.Missing?
    ensures
      var m := Advance(w, pid, RecoverJournal(Effective(w.disk).place), Ok);
      Ends(Ahead(m.world, pid, m.pc, n), Recovered(w.disk), w.recoveries + 1)
  {
    var m := Advance(w, pid, RecoverJournal(Effective(w.disk).place), Ok);
    if m.pc.RecoverClear? {
      FromRecoverClear(m.world, pid, n);
    } else {
      FromUnlock(m.world, pid, Recover, true, false, n);
    }
  }

  lemma FromRecoverPolicy(w: World, pid: nat, n: nat)
    requires Sole(w, pid, true, false) && n >= 7
    ensures Ends(Ahead(w, pid, RecoverPolicy, n), Recovered(w.disk), w.recoveries + 1)
  {
    Onward(w, pid, RecoverPolicy, n);
    FromRecoverJournal(w, pid, n - 1);
  }

  // ----- Location changes

  /** The pair that a location change publishes, without its journal. */
  function Changed(d: Disk, p: Policy, metadata: File<Metadata>, journal: File<Metadata>): Disk {
    Disk(Doc(Stored(p)), metadata, journal, Mirrored(d.seed, p, Ok))
  }

  lemma FromPublish(w: World, pid: nat, t: Task, base: Base, n: nat)
    requires Sole(w, pid, true, true) && n >= 5
    requires TargetOf(t).Some? ==> w.disk.journal == Doc(TargetOf(t).value)
    ensures Ends(Ahead(w, pid, Publish(t, base), n),
                 if TargetOf(t).Some? then
                   w.disk.(metadata := Doc(TargetOf(t).value), journal := Missing)
                 else w.disk.(metadata := Missing),
                 w.recoveries)
  {
    Onward(w, pid, Publish(t, base), n);
    var m := Advance(w, pid, Publish(t, base), Ok);
    if TargetOf(t).Some? {
      Onward(m.world, pid, m.pc, n - 1);
      var k := Advance(m.world, pid, m.pc, Ok);
      Onward(k.world, pid, k.pc, n - 2);
      FromUnlock(Advance(k.world, pid, k.pc, Ok).world, pid, t, true, true, n - 3);
    } else {
      FromUnlock(m.world, pid, t, true, true, n - 1);
    }
  }

  lemma FromSave(w: World, pid: nat, t: Task, n: nat)
    requires Sole(w, pid, true, true) && n >= 6 && PairWriter(t)
    requires TargetOf(t).Some? ==> w.disk.journal == Doc(TargetOf(t).value)
    ensures Ends(Ahead(w, pid, Save(t, Loaded(w.disk)), n),
                 if TargetOf(t).Some? then
                   Changed(w.disk, ApplyAll(EditsOf(t), Effective(w.disk)), Doc(TargetOf(t).value), Missing)
                 else
                   Changed(w.disk, ApplyAll(EditsOf(t), Effective(w.disk)), Missing, w.disk.journal),
                 w.recoveries)
  {
    var pc := Save(t, Loaded(w.disk));
    Onward(w, pid, pc, n);
    FromPublish(Advance(w, pid, pc, Ok).world, pid, t, Loaded(w.disk), n - 1);
  }

  lemma FromSaveFields(w: World, pid: nat, t: Task, n: nat)
    requires Sole(w, pid, NeedsLocality(t), true) && n >= 3 && !PairWriter(t)
    ensures Ends(Ahead(w, pid, Save(t, Loaded(w.disk)), n),
                 Changed(w.disk, ApplyAll(EditsOf(t), Effective(w.disk)), w.disk.metadata, w.disk.journal),
                 w.recoveries)
  {
    var pc := Save(t, Loaded(w.disk));
    Onward(w, pid, pc, n);
    FromUnlock(Advance(w, pid, pc, Ok).world, pid, t, NeedsLocality(t), true, n - 1);
  }

  /** From the request for the policy lock to the end. */
  lemma FromWantPolicy(w: World, pid: nat, t: Task, n: nat) returns (w': World, n': nat)
    requires Sole(w, pid, NeedsLocality(t), false) && n >= 3 && !t.Reject?
    ensures Sole(w', pid, NeedsLocality(t), true) && n' == n - 2
    ensures w'.disk == w.disk && w'.recoveries == w.recoveries
    ensures
      var base := Loaded(w.disk);
      Ahead(w, pid, WantPolicy(t), n) ==
        Ahead(w', pid, if t.Batch? && TargetOf(t).Some? then Stage(t, Some(base)) else Save(t, base), n')
  {
    Onward(w, pid, WantPolicy(t), n);
    w' := Advance(w, pid, WantPolicy(t), Ok).world;
    Onward(w', pid, Load(t), n - 1);
    n' := n - 2;
  }

  // ----- Whole tasks

  /** One process takes up a task and performs its next `n` primitives, nobody else moving. */
  function Performed(s: System, pid: nat, t: Task, n: nat): System {
    Run(s, [Start(pid, t)] + Acts(pid, Oks(n)))
  }

  predicate Free(s: System, pid: nat) {
    pid < |s.procs| && s.procs[pid].Idle?
    && s.world.localityOwner.None? && s.world.policyOwner.None?
  }

  /** The process is idle again with both locks free, on this disk, the others where they were. */
  predicate Leaves(s: System, s': System, pid: nat, disk: Disk, recoveries: nat)
    requires pid < |s.procs|
  {
    && s'.procs == s.procs && s'.world.disk == disk
    && s'.world.recoveries == s.world.recoveries + recoveries
    && s'.world.localityOwner.None? && s'.world.policyOwner.None?
  }

  lemma PerformedIsAhead(s: System, pid: nat, t: Task, n: nat)
    requires Free(s, pid) && Proper(t)
    ensures
      var m := Ahead(s.world, pid, Entry(t), n);
      Performed(s, pid, t, n) == System(m.world, s.procs[pid := m.pc])
  {
    var begun := Step(s, Start(pid, t));
    assert [Start(pid, t)][..0] == [];
    assert Run(s, [Start(pid, t)][..0]) == s;
    assert Run(s, [Start(pid, t)]) == begun;
    AloneIsRun(begun, pid, Oks(n));
    RunInTwo(s, [Start(pid, t)], Acts(pid, Oks(n)));
  }

  lemma EndsLeaves(s: System, pid: nat, t: Task, n: nat, disk: Disk, recoveries: nat)
    requires Free(s, pid) && Proper(t)
    requires Ends(Ahead(s.world, pid, Entry(t), n), disk, s.world.recoveries + recoveries)
    ensures Leaves(s, Performed(s, pid, t, n), pid, disk, recoveries)
  {
    PerformedIsAhead(s, pid, t, n);
  }

  /** The step into the locality lock. */
  lemma FromBegin(w: World, pid: nat, t: Task, n: nat) returns (w': World)
    requires Sole(w, pid, false, false) && n > 0
    ensures Sole(w', pid, true, false) && w'.disk == w.disk && w'.recoveries == w.recoveries
    ensures Ahead(w, pid, Begin(t), n) == Ahead(w', pid, UnderLocality(t), n - 1)
  {
    Onward(w, pid, Begin(t), n);
    w' := Advance(w, pid, Begin(t), Ok).world;
  }

  /** A recovery that meets no failure succeeds: it leaves exactly the recovered disk, where
      nothing waits in the journal, and reports one success. */
  lemma RecoverySucceeds(s: System, pid: nat, n: nat)
    requires Free(s, pid) && n >= 16
    ensures Leaves(s, Performed(s, pid, Recover, n), pid, Recovered(s.world.disk), 1)
    ensures Performed(s, pid, Recover, n).world.disk.journal.Missing?
  {
    var w := FromBegin(s.world, pid, Recover, n);
    FromRecoverPolicy(w, pid, n - 1);
    EndsLeaves(s, pid, Recover, n, Recovered(s.world.disk), 1);
  }

  /** A selected place is committed: the policy keeps every field but its location, which is
      the record's, the record is the metadata, and no journal is left. */
  lemma SelectionSucceeds(s: System, pid: nat, m: Metadata, n: nat)
    requires Free(s, pid) && n >= 16 && ValidRecord(m) && !s.world.disk.metadata.Invalid?
    ensures
      var d := s.world.disk;
      var p := Effective(d).(place := Location(true, m.latitude, m.longitude));
      Leaves(s, Performed(s, pid, SelectPlace(m), n), pid, Changed(d, p, Doc(m), Missing), 0)
  {
    var t := SelectPlace(m);
    var w := FromBegin(s.world, pid, t, n);
    Onward(w, pid, Inspect(t), n - 1);
    Onward(w, pid, Stage(t, None), n - 2);
    w := Advance(w, pid, Stage(t, None), Ok).world;
    var k;
    w, k := FromWantPolicy(w, pid, t, n - 3);
    FromSave(w, pid, t, k);
    SingleEdit(SetPlace(m.latitude, m.longitude), Effective(s.world.disk));
    EndsLeaves(s, pid, t, n,
      Changed(s.world.disk, ApplyAll(EditsOf(t), Effective(s.world.disk)), Doc(m), Missing), 0);
  }

  /** A batch with a location option publishes all its edits together with the record of its
      last location, or with no record if that clears it. */
  lemma BatchSucceeds(s: System, pid: nat, es: seq<Edit>, n: nat)
    requires Free(s, pid) && n >= 16 && !FieldOnly(es)
    requires LastMove(es).value.SetPlace? ==>
      ValidRecord(CustomCoordinates(LastMove(es).value.latitude, LastMove(es).value.longitude))
    ensures
      var d := s.world.disk;
      var p := ApplyAll(es, Effective(d));
      match LastMove(es).value
      case SetPlace(lat, lon) =>
        Leaves(s, Performed(s, pid, Batch(es), n), pid,
               Changed(d, p, Doc(CustomCoordinates(lat, lon)), Missing), 0)
      case _ => Leaves(s, Performed(s, pid, Batch(es), n), pid, Changed(d, p, Missing, d.journal), 0)
  {
    var t, d := Batch(es), s.world.disk;
    var w := FromBegin(s.world, pid, t, n);
    var k;
    w, k := FromWantPolicy(w, pid, t, n - 1);
    if TargetOf(t).Some? {
      Onward(w, pid, Stage(t, Some(Loaded(d))), k);
      w, k := Advance(w, pid, Stage(t, Some(Loaded(d))), Ok).world, k - 1;
    }
    FromSave(w, pid, t, k);
    EndsLeaves(s, pid, t, n,
      if TargetOf(t).Some? then Changed(d, ApplyAll(es, Effective(d)), Doc(TargetOf(t).value), Missing)
      else Changed(d, ApplyAll(es, Effective(d)), Missing, d.journal), 0);
  }

  /** A change of fields publishes its edits and nothing else. */
  lemma FieldsSucceed(s: System, pid: nat, es: seq<Edit>, n: nat)
    requires Free(s, pid) && n >= 16 && FieldOnly(es)
    ensures
      var d := s.world.disk;
      Leaves(s, Performed(s, pid, ChangeFields(es), n), pid,
             Changed(d, ApplyAll(es, Effective(d)), d.metadata, d.journal), 0)
  {
    var t, d := ChangeFields(es), s.world.disk;
    var w, k := FromWantPolicy(s.world, pid, t, n);
    FromSaveFields(w, pid, t, k);
    EndsLeaves(s, pid, t, n, Changed(d, ApplyAll(es, Effective(d)), d.metadata, d.journal), 0);
  }

  /** A rejected command leaves the disk alone. */
  lemma RejectionChangesNothing(s: System, pid: nat, moves: bool, n: nat)
    requires Free(s, pid) && n >= 16
    ensures Leaves(s, Performed(s, pid, Reject(moves), n), pid, s.world.disk, 0)
  {
    var t := Reject(moves);
    var w, k := s.world, n;
    if moves {
      w := FromBegin(w, pid, t, n);
      k := n - 1;
    }
    Onward(w, pid, WantPolicy(t), k);
    w := Advance(w, pid, WantPolicy(t), Ok).world;
    Onward(w, pid, Load(t), k - 1);
    FromUnlock(w, pid, t, moves, true, k - 2);
    EndsLeaves(s, pid, t, n, s.world.disk, 0);
  }

  // ----- Reconciliation

  /** The record that goes with the published location, as far as the panel can know. */
  function Known(d: Disk, cached: Option<Metadata>): Option<Metadata> {
    match d.metadata
    case Doc(m) => Some(m)
    case Missing => None
    case Invalid => cached
  }

  /** What following the system time zone is for: a record that describes the location takes
      over the zone's name and keeps the rest; a location that nobody chose becomes the zone's
      reference point, when that is certain and known to belong to the zone; nothing else. */
  function Followed(d: Disk, t: Task): Disk
    requires t.FollowZone?
  {
    var known, place := Known(d, t.cached), Effective(d).place;
    if known.Some? && Matches(place, known.value) then
      if t.zone.Some? && ValidRecord(known.value.(zone := t.zone.value))
         && known.value.zone != t.zone.value
      then d.(metadata := Doc(known.value.(zone := t.zone.value)))
      else d
    else if !place.configured && !t.uncertain && t.aligned && t.reference.Some? then
      Changed(d, Effective(d).(place := t.reference.value.(configured := true)), d.metadata, d.journal)
    else d
  }

  lemma FollowingSucceeds(s: System, pid: nat, t: Task, n: nat)
    requires Free(s, pid) && n >= 16 && t.FollowZone?
    ensures Leaves(s, Performed(s, pid, t, n), pid, Followed(s.world.disk, t), 0)
  {
    var w := FromBegin(s.world, pid, t, n);
    Onward(w, pid, Survey(t), n - 1);
    FromSurvey(w, pid, t, n - 2);
    EndsLeaves(s, pid, t, n, Followed(s.world.disk, t), 0);
  }

  lemma FromSaveZone(w: World, pid: nat, t: Task, seen: Location, record: Metadata, n: nat)
    requires Sole(w, pid, true, false) && n >= 3
    ensures Ends(Ahead(w, pid, SaveZone(t, seen, record), n),
                 if ValidRecord(record) then w.disk.(metadata := Doc(record)) else w.disk, w.recoveries)
  {
    Onward(w, pid, SaveZone(t, seen, record), n);
    FromUnlock(Advance(w, pid, SaveZone(t, seen, record), Ok).world, pid, t, true, false, n - 1);
  }

  lemma FromSurvey(w: World, pid: nat, t: Task, n: nat)
    requires Sole(w, pid, true, false) && n >= 7 && t.FollowZone?
    ensures Ends(Ahead(w, pid, SurveyMeta(t, Effective(w.disk).place), n),
                 Followed(w.disk, t), w.recoveries)
  {
    var pc := SurveyMeta(t, Effective(w.disk).place);
    Onward(w, pid, pc, n);
    var m := Advance(w, pid, pc, Ok);
    if m.pc.SaveZone? {
      FromSaveZone(w, pid, t, m.pc.seen, m.pc.record, n - 1);
    } else if m.pc.WantPolicy? {
      var w', k := FromWantPolicy(w, pid, t, n - 1);
      FromSaveFields(w', pid, t, k);
      SingleEdit(EditsOf(t)[0], Effective(w.disk));
    } else {
      FromUnlock(w, pid, t, true, false, n - 1);
    }
  }
}
