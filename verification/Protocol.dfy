/** The two-file locality transaction as a step system.

    Any number of processes run at once. Each one repeatedly performs a task, one primitive
    per step: a try-lock, a read, an atomic write, an unlink, or a lock release. An event
    names the process and how its primitive went, so a list of events is one interleaving
    with its failures and crashes, and every list of events is a run. */
module Protocol {
  import opened Optional
  import opened Temporal
  import opened Disk

  datatype Task =
    /** A model setter, or a command line without a location option. */
    | ChangeFields(edits: seq<Edit>)
    /** A place or coordinate chosen in the panel. */
    | SelectPlace(target: Metadata)
    /** A command line with at least one location option. */
    | Batch(edits: seq<Edit>)
    /** A command line with an unacceptable option; `moves` if a word is a location option. */
    | Reject(moves: bool)
    /** Reconciliation with the system time zone; `cached` is the panel's in-memory record. */
    | FollowZone(reference: Option<Location>, aligned: bool, zone: Option<string>,
                 cached: Option<Metadata>, uncertain: bool)
    | Recover

  predicate Proper(t: Task) {
    match t
    case ChangeFields(es) => FieldOnly(es)
    case Batch(es) => !FieldOnly(es)
    case _ => true
  }

  predicate NeedsLocality(t: Task) {
    !t.ChangeFields? && (t.Reject? ==> t.moves)
  }

  /** The paired writers: tasks that move the policy location and the metadata together. */
  predicate PairWriter(t: Task) {
    t.SelectPlace? || t.Batch?
  }

  function CustomCoordinates(latitude: real, longitude: real): Metadata {
    Metadata("Custom coordinates", "", "", latitude, longitude)
  }

  /** The record a task stages; `None` for a task that ends by clearing the metadata. */
  function TargetOf(t: Task): Option<Metadata> {
    match t
    case SelectPlace(m) => Some(m)
    case Batch(es) =>
      (match LastMove(es)
       case Some(SetPlace(lat, lon)) => Some(CustomCoordinates(lat, lon))
       case _ => None)
    case _ => None
  }

  function EditsOf(t: Task): seq<Edit> {
    match t
    case ChangeFields(es) => es
    case Batch(es) => es
    case SelectPlace(m) => [SetPlace(m.latitude, m.longitude)]
    case FollowZone(Some(l), _, _, _, _) => [SetPlace(l.latitude, l.longitude)]
    case _ => []
  }

  /** Where a process is; the name says which primitive it performs next. */
  datatype Pc =
    | Idle
    | Begin(task: Task)                        // take the locality lock
    | Inspect(task: Task)                      // read the current metadata (panel only)
    | Stage(task: Task, early: Option<Base>)   // write the journal
    | WantPolicy(task: Task)                   // take the policy lock
    | Load(task: Task)                         // read the policy
    | Save(task: Task, base: Base)             // publish the policy
    | Publish(task: Task, base: Base)          // reread the journal, or unlink the metadata
    | WriteMeta(task: Task, base: Base, record: Metadata)
    | DropJournal(task: Task)
    | Rollback(task: Task, base: Base)         // restore the policy or its absence
    | Discard(task: Task, locked: bool)        // unlink the journal
    | Unlock(task: Task, locality: bool, policy: bool)
    | Survey(task: Task)                       // read the policy under the locality lock
    | SurveyMeta(task: Task, seen: Location)   // read the metadata
    | SaveZone(task: Task, seen: Location, record: Metadata)
    | RecoverPolicy
    | RecoverJournal(seen: Location)
    | RecoverRead
    | RecoverWrite(record: Metadata)
    | RecoverDrop
    | RecoverDiscard(seen: Location)
    | RecoverClear

  predicate HoldsLocality(pc: Pc) {
    match pc
    case Idle => false
    case Begin(_) => false
    case Unlock(_, locality, _) => locality
    case WantPolicy(t) => NeedsLocality(t)
    case Load(t) => NeedsLocality(t)
    case Save(t, _) => NeedsLocality(t)
    case _ => true
  }

  predicate HoldsPolicy(pc: Pc) {
    match pc
    case Stage(_, early) => early.Some?
    case Load(_) => true
    case Save(_, _) => true
    case Publish(_, _) => true
    case WriteMeta(_, _, _) => true
    case DropJournal(_) => true
    case Rollback(_, _) => true
    case Discard(_, locked) => locked
    case Unlock(_, _, policy) => policy
    case _ => false
  }

  /** One publication: the ticket drawn with the policy lock, what it changed, the desktop
      preferences it found, and how it went. */
  datatype Commit = Commit(ticket: nat, edits: seq<Edit>, seed: Seed, outcome: Outcome)

  /** The pair found when the locality lock was last taken, and what befell it since. */
  datatype Origin = Origin(
    place: Location, metadata: File<Metadata>, clean: bool, vanished: bool, restored: bool)

  /** What the processes share, and the history kept about it. */
  datatype World = World(
    disk: Disk,
    localityOwner: Option<nat>,
    policyOwner: Option<nat>,
    tickets: nat,        // policy-lock acquisitions so far
    log: seq<Commit>,    // publications that were not rolled back
    ground: Policy,      // the effective policy when no publication stands
    pending: bool,       // a crash or a failed rollback since the last successful recovery
    recoveries: nat,     // recoveries that reported success
    origin: Origin)

  datatype System = System(world: World, procs: seq<Pc>)

  datatype Event = Start(pid: nat, task: Task) | Act(pid: nat, outcome: Outcome)

  /** The world and the program point after a primitive. */
  datatype Move = Move(world: World, pc: Pc)

  // ----- Locks

  function Snapshot(d: Disk): Origin {
    Origin(Effective(d).place, d.metadata, Coherent(d) && d.journal.Missing?, false, false)
  }

  function UnderLocality(t: Task): Pc {
    match t
    case SelectPlace(_) => Inspect(t)
    case FollowZone(_, _, _, _, _) => Survey(t)
    case Recover => RecoverPolicy
    case _ => WantPolicy(t)
  }

  function TakeLocality(w: World, pid: nat, o: Outcome, t: Task): Move {
    if o.Ok? && w.localityOwner.None? then
      Move(w.(localityOwner := Some(pid), origin := Snapshot(w.disk)), UnderLocality(t))
    else Move(w, Idle)
  }

  function TakePolicy(w: World, pid: nat, o: Outcome, t: Task): Move {
    if o.Ok? && w.policyOwner.None? then
      Move(w.(policyOwner := Some(pid), tickets := w.tickets + 1), Load(t))
    else if t.SelectPlace? then Move(w, Discard(t, false))
    else Move(w, if NeedsLocality(t) then Unlock(t, true, false) else Idle)
  }

  /** Exits release the policy lock first, then the locality lock. */
  function Release(w: World, t: Task, locality: bool, policy: bool): Move {
    if policy then
      Move(w.(policyOwner := None), if locality then Unlock(t, true, false) else Idle)
    else if locality then Move(w.(localityOwner := None), Idle)
    else Move(w, Idle)
  }

  /** The kernel drops a dead process's locks; the disk stays as it is. */
  function Die(w: World, pc: Pc): Move {
    Move(w.(localityOwner := if HoldsLocality(pc) then None else w.localityOwner,
            policyOwner := if HoldsPolicy(pc) then None else w.policyOwner,
            pending := w.pending || HoldsLocality(pc)),
         Idle)
  }

  // ----- Writers

  function DoInspect(w: World, o: Outcome, t: Task): Move {
    if o.Ok? && !w.disk.metadata.Invalid? then Move(w, Stage(t, None))
    else Move(w, Unlock(t, true, false))
  }

  function DoStage(w: World, o: Outcome, t: Task, early: Option<Base>): Move {
    if o.Ok? && TargetOf(t).Some? && ValidRecord(TargetOf(t).value) then
      Move(w.(disk := w.disk.(journal := Doc(TargetOf(t).value))),
           if early.Some? then Save(t, early.value) else WantPolicy(t))
    else Move(w, Unlock(t, true, early.Some?))
  }

  function DoLoad(w: World, o: Outcome, t: Task): Move {
    if o.Ok? && !t.Reject? then
      var base := Loaded(w.disk);
      Move(w, if t.Batch? && TargetOf(t).Some? then Stage(t, Some(base)) else Save(t, base))
    else if t.SelectPlace? then Move(w, Discard(t, true))
    else Move(w, Unlock(t, NeedsLocality(t), true))
  }

  function Candidate(t: Task, base: Base): Policy {
    ApplyAll(EditsOf(t), base.policy)
  }

  function DoSave(w: World, o: Outcome, t: Task, base: Base): Move {
    var candidate := Candidate(t, base);
    if Saved(o) then
      Move(w.(disk := w.disk.(policy := Doc(Stored(candidate)),
                              seed := Mirrored(w.disk.seed, candidate, o)),
              log := w.log + [Commit(w.tickets, EditsOf(t), w.disk.seed, o)]),
           if PairWriter(t) then Publish(t, base) else Unlock(t, NeedsLocality(t), true))
    else if TargetOf(t).Some? then Move(w, Discard(t, true))
    else Move(w, Unlock(t, NeedsLocality(t), true))
  }

  function DoPublish(w: World, o: Outcome, t: Task, base: Base): Move {
    if TargetOf(t).Some? then
      if o.Ok? && w.disk.journal.Doc? then Move(w, WriteMeta(t, base, w.disk.journal.value))
      else Move(w, Rollback(t, base))
    else
      var w' := w.(disk := w.disk.(metadata := Unlinked(w.disk.metadata, o)));
      if o.Ok? then Move(w', Unlock(t, true, true))
      else
        var gone := o.FailGone? && !w.disk.metadata.Missing?;
        Move(w'.(origin := w.origin.(vanished := gone)), Rollback(t, base))
  }

  function DoWriteMeta(
    w: World, o: Outcome, t: Task, base: Base, record: Metadata): Move {
    if o.Ok? then Move(w.(disk := w.disk.(metadata := Doc(record))), DropJournal(t))
    else Move(w, Rollback(t, base))
  }

  /** Cleanup after a publication; its failure is ignored. */
  function DoDropJournal(w: World, o: Outcome, t: Task): Move {
    Move(w.(disk := w.disk.(journal := Unlinked(w.disk.journal, o))), Unlock(t, true, true))
  }

  function Forget(log: seq<Commit>): seq<Commit> {
    if log == [] then [] else log[..|log| - 1]
  }

  /** A rollback that reported success. */
  predicate Restored(o: Outcome, base: Base) {
    if base.found then Saved(o) else o.Ok?
  }

  /** A rollback that took effect, reported or not. */
  predicate Undone(o: Outcome, base: Base) {
    Restored(o, base) || (!base.found && o.FailGone?)
  }

  /** Puts back the document that was loaded, which mirrors it again, or its absence, which
      leaves the desktop keys as the publication wrote them. */
  function DoRollback(w: World, o: Outcome, t: Task, base: Base): Move {
    var disk :=
      if !Undone(o, base) then w.disk
      else if base.found then
        w.disk.(policy := Doc(Stored(base.policy)), seed := Mirrored(w.disk.seed, base.policy, o))
      else w.disk.(policy := Missing);
    var w' := w.(disk := disk,
                 log := if Undone(o, base) then Forget(w.log) else w.log,
                 ground := if Undone(o, base) && !base.found then Fallback(w.disk.seed)
                           else w.ground);
    if Restored(o, base) then
      Move(w'.(origin := w.origin.(restored := true)),
           if TargetOf(t).Some? then Discard(t, true) else Unlock(t, true, true))
    else Move(w'.(pending := true), Unlock(t, true, true))
  }

  /** The panel's model has released the policy lock before the journal is dropped. */
  function DoDiscard(w: World, o: Outcome, t: Task, locked: bool): Move {
    if t.SelectPlace? && locked then Move(w.(policyOwner := None), Discard(t, false))
    else
      Move(w.(disk := w.disk.(journal := Unlinked(w.disk.journal, o))),
           Unlock(t, true, locked))
  }

  // ----- Reconciliation with the system time zone

  function DoSurvey(w: World, o: Outcome, t: Task): Move {
    if o.Ok? then Move(w, SurveyMeta(t, Effective(w.disk).place))
    else Move(w, Unlock(t, true, false))
  }

  predicate MatchesReference(l: Location, reference: Option<Location>) {
    && reference.Some? && l.configured
    && Close(l.latitude, reference.value.latitude)
    && Close(l.longitude, reference.value.longitude)
  }

  /** The record a reader goes by: what it read, or else what it remembers. */
  function KnownRecord(metadata: File<Metadata>, o: Outcome, cached: Option<Metadata>): Option<Metadata> {
    if o.Ok? && metadata.Doc? then Some(metadata.value)
    else if o.Ok? && metadata.Missing? then None
    else cached
  }

  /** Decides whether reconciliation rewrites the zone, the coordinates or nothing. */
  function ZoneDecision(t: Task, seen: Location, known: Option<Metadata>): Pc
    requires t.FollowZone?
  {
    var matching := known.Some? && Matches(seen, known.value);
    var same := MatchesReference(seen, t.reference);
    var follows := !t.uncertain && !matching && (!seen.configured || same);
    if matching && t.zone.Some? && known.value.zone != t.zone.value then
      SaveZone(t, seen, known.value.(zone := t.zone.value))
    else if follows && t.aligned && t.reference.Some? && !same then WantPolicy(t)
    else Unlock(t, true, false)
  }

  function DoSurveyMeta(w: World, o: Outcome, t: Task, seen: Location): Move
    requires t.FollowZone?
  {
    Move(w, ZoneDecision(t, seen, KnownRecord(w.disk.metadata, o, t.cached)))
  }

  function DoSaveZone(w: World, o: Outcome, t: Task, record: Metadata): Move {
    Move(if o.Ok? && ValidRecord(record) then w.(disk := w.disk.(metadata := Doc(record))) else w,
         Unlock(t, true, false))
  }

  // ----- Recovery

  function Succeed(w: World): Move {
    Move(w.(pending := false, recoveries := w.recoveries + 1), Unlock(Recover, true, false))
  }

  function GiveUp(w: World): Move {
    Move(w, Unlock(Recover, true, false))
  }

  function DoRecoverPolicy(w: World, o: Outcome): Move {
    if o.Ok? then Move(w, RecoverJournal(Effective(w.disk).place)) else GiveUp(w)
  }

  function DoRecoverJournal(w: World, o: Outcome, seen: Location): Move {
    if !o.Ok? then GiveUp(w)
    else match w.disk.journal
      case Missing => if seen.configured then Succeed(w) else Move(w, RecoverClear)
      case Invalid => Move(w, RecoverDiscard(seen))
      case Doc(m) => Move(w, if Matches(seen, m) then RecoverRead else RecoverDiscard(seen))
  }

  function DoRecoverRead(w: World, o: Outcome): Move {
    if o.Ok? && w.disk.journal.Doc? then Move(w, RecoverWrite(w.disk.journal.value))
    else GiveUp(w)
  }

  function DoRecoverWrite(w: World, o: Outcome, record: Metadata): Move {
    if o.Ok? then Move(w.(disk := w.disk.(metadata := Doc(record))), RecoverDrop)
    else GiveUp(w)
  }

  function DoRecoverDrop(w: World, o: Outcome): Move {
    Succeed(w.(disk := w.disk.(journal := Unlinked(w.disk.journal, o))))
  }

  function DoRecoverDiscard(w: World, o: Outcome, seen: Location): Move {
    var w' := w.(disk := w.disk.(journal := Unlinked(w.disk.journal, o)));
    if !o.Ok? then GiveUp(w')
    else if seen.configured then Succeed(w')
    else Move(w', RecoverClear)
  }

  function DoRecoverClear(w: World, o: Outcome): Move {
    var w' := w.(disk := w.disk.(metadata := Unlinked(w.disk.metadata, o)));
    if o.Ok? then Succeed(w') else GiveUp(w')
  }

  // ----- Steps and runs

  function Advance(w: World, pid: nat, pc: Pc, o: Outcome): Move {
    match pc
    case Idle => Move(w, Idle)
    case Begin(t) => TakeLocality(w, pid, o, t)
    case Inspect(t) => DoInspect(w, o, t)
    case Stage(t, early) => DoStage(w, o, t, early)
    case WantPolicy(t) => TakePolicy(w, pid, o, t)
    case Load(t) => DoLoad(w, o, t)
    case Save(t, base) => DoSave(w, o, t, base)
    case Publish(t, base) => DoPublish(w, o, t, base)
    case WriteMeta(t, base, record) => DoWriteMeta(w, o, t, base, record)
    case DropJournal(t) => DoDropJournal(w, o, t)
    case Rollback(t, base) => DoRollback(w, o, t, base)
    case Discard(t, locked) => DoDiscard(w, o, t, locked)
    case Unlock(t, locality, policy) => Release(w, t, locality, policy)
    case Survey(t) => DoSurvey(w, o, t)
    case SurveyMeta(t, seen) => if t.FollowZone? then DoSurveyMeta(w, o, t, seen) else Move(w, pc)
    case SaveZone(t, _, record) => DoSaveZone(w, o, t, record)
    case RecoverPolicy => DoRecoverPolicy(w, o)
    case RecoverJournal(seen) => DoRecoverJournal(w, o, seen)
    case RecoverRead => DoRecoverRead(w, o)
    case RecoverWrite(record) => DoRecoverWrite(w, o, record)
    case RecoverDrop => DoRecoverDrop(w, o)
    case RecoverDiscard(seen) => DoRecoverDiscard(w, o, seen)
    case RecoverClear => DoRecoverClear(w, o)
  }

  function Entry(t: Task): Pc {
    if NeedsLocality(t) then Begin(t) else WantPolicy(t)
  }

  function Next(w: World, pc: Pc, e: Event): Move {
    match e
    case Start(_, t) => Move(w, if pc.Idle? && Proper(t) then Entry(t) else pc)
    case Act(pid, o) => if o.Crash? then Die(w, pc) else Advance(w, pid, pc, o)
  }

  function Step(s: System, e: Event): System {
    if e.pid >= |s.procs| then s
    else
      var m := Next(s.world, s.procs[e.pid], e);
      System(m.world, s.procs[e.pid := m.pc])
  }

  function Run(s: System, events: seq<Event>): System {
    if events == [] then s else Step(Run(s, events[..|events| - 1]), events[|events| - 1])
  }

  /** One process acting alone from a program point, with the given outcomes in order. */
  function Alone(w: World, pid: nat, pc: Pc, outs: seq<Outcome>): Move {
    if outs == [] then Move(w, pc)
    else
      var m := Alone(w, pid, pc, outs[..|outs| - 1]);
      Next(m.world, m.pc, Act(pid, outs[|outs| - 1]))
  }

  /** A world in which nothing has happened yet. */
  function FreshWorld(d: Disk): World {
    World(d, None, None, 0, [], Effective(d), false, 0, Snapshot(d))
  }

  function Acts(pid: nat, outs: seq<Outcome>): (events: seq<Event>)
    ensures |events| == |outs|
    ensures forall i | 0 <= i < |outs| :: events[i] == Act(pid, outs[i])
  {
    seq(|outs|, i requires 0 <= i < |outs| => Act(pid, outs[i]))
  }

  /** A process acting alone is a run of the system in which nobody else moves. */
  lemma {:induction false} AloneIsRun(s: System, pid: nat, outs: seq<Outcome>)
    requires pid < |s.procs|
    ensures
      var m := Alone(s.world, pid, s.procs[pid], outs);
      Run(s, Acts(pid, outs)) == System(m.world, s.procs[pid := m.pc])
  {
    if outs != [] {
      var events := Acts(pid, outs);
      assert events[..|events| - 1] == Acts(pid, outs[..|outs| - 1]);
      AloneIsRun(s, pid, outs[..|outs| - 1]);
    }
  }

  lemma {:induction false} RunInTwo(s: System, first: seq<Event>, second: seq<Event>)
    ensures Run(s, first + second) == Run(Run(s, first), second)
  {
    if second == [] {
      assert first + second == first;
    } else {
      var all := first + second;
      assert all[..|all| - 1] == first + second[..|second| - 1];
      RunInTwo(s, first, second[..|second| - 1]);
    }
  }

  /** No process has started and the lists that record history are empty. */
  predicate Initial(s: System) {
    && (forall pc <- s.procs :: pc.Idle?)
    && s.world.localityOwner.None? && s.world.policyOwner.None?
    && s.world.tickets == 0 && s.world.log == [] && !s.world.pending
    && Canonical(s.world.disk) && Legible(s.world.disk)
    && s.world.ground == Effective(s.world.disk)
  }
}
