/** Publication of the policy file on Windows by any number of processes.

    A saver writes a private sibling byte by byte and renames it over the live path; a clearer
    renames the live path to a tombstone; a loader opens the live path and then measures and
    reads the file it opened. An event is one system call of one process. */
module WindowsPublication {
  import opened Optional
  import opened Bytes

  const CREATE_ATTEMPTS := 32
  const MOVE_ATTEMPTS := 64
  const CAPACITY := 1024

  datatype Name = Live | Tombstone | Private(serial: nat)

  /** A directory and the files it names; a file that was opened outlives its name. */
  datatype Volume = Volume(dir: map<Name, nat>, files: seq<Text>)

  function Contents(v: Volume, n: Name): Option<Text> {
    if n in v.dir && v.dir[n] < |v.files| then Some(v.files[v.dir[n]]) else None
  }

  /** What the live path held after each change of it, and whose change that was. */
  datatype Entry = Entry(content: Option<Text>, author: Option<nat>)

  datatype Pc =
    | Idle
    | Creating(doc: Text, since: nat, attempt: nat)
    | Writing(doc: Text, since: nat, name: Name, id: nat, count: nat)
    | Flushing(doc: Text, since: nat, name: Name, id: nat)
    | Moving(doc: Text, since: nat, name: Name, id: nat, attempt: nat)
    | Removing(doc: Text, since: nat, name: Name)
    | ClearMoving(since: nat)
    | ClearDeleting(since: nat)
    | Opening(since: nat)
    | Measuring(since: nat, id: nat)
    | Reading(since: nat, id: nat, size: nat)

  datatype Answer = Failed | Unusable | Read(text: Text)

  /** A finished call, with the part of the history during which it ran. */
  datatype Result =
    | Saved(pid: nat, since: nat, end: nat, doc: Text, ok: bool)
    | Cleared(pid: nat, since: nat, end: nat, ok: bool)
    | Loaded(pid: nat, since: nat, end: nat, answer: Answer)

  datatype World = World(
    volume: Volume, history: seq<Entry>, results: seq<Result>, offered: set<Text>)

  datatype System = System(world: World, procs: seq<Pc>)

  datatype Outcome = Ok | Busy | Fail | Crash

  datatype Event =
    | Save(pid: nat, doc: Text) | Clear(pid: nat) | Load(pid: nat)
    | Act(pid: nat, outcome: Outcome, serial: nat)

  datatype Move = Move(world: World, pc: Pc)

  // ----- Steps

  function Finish(w: World, r: Result): Move {
    Move(w.(results := w.results + [r]), Idle)
  }

  function NotSaved(w: World, pid: nat, pc: Pc): Move
    requires pc.Creating? || pc.Removing?
  {
    Finish(w, Saved(pid, pc.since, |w.history|, pc.doc, false))
  }

  /** Exclusive creation of a private sibling; a taken name costs an attempt. */
  function DoCreate(w: World, pid: nat, pc: Pc, o: Outcome, serial: nat): Move
    requires pc.Creating?
  {
    var name := Private(serial);
    if o.Ok? && name !in w.volume.dir then
      var id := |w.volume.files|;
      Move(w.(volume := Volume(w.volume.dir[name := id], w.volume.files + [[]])),
           Writing(pc.doc, pc.since, name, id, 0))
    else if o.Fail? || pc.attempt + 1 >= CREATE_ATTEMPTS then NotSaved(w, pid, pc)
    else Move(w, Creating(pc.doc, pc.since, pc.attempt + 1))
  }

  function DoWrite(w: World, pc: Pc, o: Outcome): Move
    requires pc.Writing?
  {
    if !o.Ok? || pc.id >= |w.volume.files| then Move(w, Removing(pc.doc, pc.since, pc.name))
    else if pc.count >= |pc.doc| then Move(w, Flushing(pc.doc, pc.since, pc.name, pc.id))
    else
      var files := w.volume.files[pc.id := w.volume.files[pc.id] + [pc.doc[pc.count]]];
      Move(w.(volume := w.volume.(files := files)),
           Writing(pc.doc, pc.since, pc.name, pc.id, pc.count + 1))
  }

  function DoFlush(w: World, pc: Pc, o: Outcome): Move
    requires pc.Flushing?
  {
    Move(w, if o.Ok? then Moving(pc.doc, pc.since, pc.name, pc.id, 0)
            else Removing(pc.doc, pc.since, pc.name))
  }

  function Renamed(v: Volume, from: Name, to: Name): Volume
    requires from in v.dir
  {
    v.(dir := v.dir[to := v.dir[from]] - {from})
  }

  /** The commit point of a save: the staged file replaces the live one. */
  function DoMove(w: World, pid: nat, pc: Pc, o: Outcome): Move
    requires pc.Moving?
  {
    if o.Ok? && pc.name in w.volume.dir then
      var volume := Renamed(w.volume, pc.name, Live);
      var w' := w.(volume := volume, history := w.history + [Entry(Contents(volume, Live), Some(pid))]);
      Finish(w', Saved(pid, pc.since, |w'.history|, pc.doc, true))
    else if o.Busy? && pc.attempt + 1 < MOVE_ATTEMPTS then
      Move(w, Moving(pc.doc, pc.since, pc.name, pc.id, pc.attempt + 1))
    else Move(w, Removing(pc.doc, pc.since, pc.name))
  }

  function DoRemove(w: World, pid: nat, pc: Pc, o: Outcome): Move
    requires pc.Removing?
  {
    var w' := if o.Ok? then w.(volume := w.volume.(dir := w.volume.dir - {pc.name})) else w;
    NotSaved(w', pid, pc)
  }

  /** The commit point of a clear: the live name becomes the tombstone. */
  function DoClearMove(w: World, pid: nat, pc: Pc, o: Outcome): Move
    requires pc.ClearMoving?
  {
    if o.Ok? && Live in w.volume.dir then
      Move(w.(volume := Renamed(w.volume, Live, Tombstone),
              history := w.history + [Entry(None, Some(pid))]),
           ClearDeleting(pc.since))
    else Finish(w, Cleared(pid, pc.since, |w.history|, o.Ok?))
  }

  function DoClearDelete(w: World, pid: nat, pc: Pc, o: Outcome): Move
    requires pc.ClearDeleting?
  {
    var w' := if o.Ok? then w.(volume := w.volume.(dir := w.volume.dir - {Tombstone})) else w;
    Finish(w', Cleared(pid, pc.since, |w.history|, true))
  }

  function DoOpen(w: World, pid: nat, pc: Pc, o: Outcome): Move
    requires pc.Opening?
  {
    if o.Ok? && Live in w.volume.dir then Move(w, Measuring(pc.since, w.volume.dir[Live]))
    else
      Finish(w, Loaded(pid, pc.since, |w.history|, if o.Ok? then Unusable else Failed))
  }

  function DoMeasure(w: World, pid: nat, pc: Pc, o: Outcome): Move
    requires pc.Measuring?
  {
    var size := if pc.id < |w.volume.files| then |w.volume.files[pc.id]| else 0;
    if !o.Ok? then Finish(w, Loaded(pid, pc.since, |w.history|, Failed))
    else if size == 0 || size >= CAPACITY then
      Finish(w, Loaded(pid, pc.since, |w.history|, Unusable))
    else Move(w, Reading(pc.since, pc.id, size))
  }

  /** Reads as many bytes as were measured; fewer is an error. */
  function DoRead(w: World, pid: nat, pc: Pc, o: Outcome): Move
    requires pc.Reading?
  {
    var text := if pc.id < |w.volume.files| then w.volume.files[pc.id] else [];
    Finish(w, Loaded(pid, pc.since, |w.history|,
                     if o.Ok? && |text| >= pc.size then Read(text[..pc.size]) else Failed))
  }

  function Advance(w: World, pid: nat, pc: Pc, o: Outcome, serial: nat): Move {
    match pc
    case Idle => Move(w, pc)
    case Creating(_, _, _) => DoCreate(w, pid, pc, o, serial)
    case Writing(_, _, _, _, _) => DoWrite(w, pc, o)
    case Flushing(_, _, _, _) => DoFlush(w, pc, o)
    case Moving(_, _, _, _, _) => DoMove(w, pid, pc, o)
    case Removing(_, _, _) => DoRemove(w, pid, pc, o)
    case ClearMoving(_) => DoClearMove(w, pid, pc, o)
    case ClearDeleting(_) => DoClearDelete(w, pid, pc, o)
    case Opening(_) => DoOpen(w, pid, pc, o)
    case Measuring(_, _) => DoMeasure(w, pid, pc, o)
    case Reading(_, _, _) => DoRead(w, pid, pc, o)
  }

  function Now(w: World): nat {
    if w.history == [] then 0 else |w.history| - 1
  }

  /** A call starts, a call performs its next system call, or its process dies. */
  function Next(w: World, pc: Pc, e: Event): Move {
    match e
    case Save(_, doc) =>
      if pc.Idle? then Move(w.(offered := w.offered + {doc}), Creating(doc, Now(w), 0))
      else Move(w, pc)
    case Clear(_) => Move(w, if pc.Idle? then ClearMoving(Now(w)) else pc)
    case Load(_) => Move(w, if pc.Idle? then Opening(Now(w)) else pc)
    case Act(pid, o, serial) => if o.Crash? then Move(w, Idle) else Advance(w, pid, pc, o, serial)
  }

  function Step(s: System, e: Event): System {
    if e.pid >= |s.procs| then s
    else
      var m := Next(s.world, s.procs[e.pid], e);
      System(m.world, s.procs[e.pid := m.pc])
  }

  function Run(s: System, events: seq<Event>): System {
    if events == [] then s else Step(Run(s, events[..|events| - 1]), events[|events| - 1])
  }

  /** Nothing runs; the directory may hold stale private names but no two for one file. */
  ghost predicate Initial(s: System) {
    && (forall pc <- s.procs :: pc.Idle?)
    && (forall n <- s.world.volume.dir :: s.world.volume.dir[n] < |s.world.volume.files|)
    && (forall m <- s.world.volume.dir, n <- s.world.volume.dir ::
          s.world.volume.dir[m] == s.world.volume.dir[n] ==> m == n)
    && s.world.history == [Entry(Contents(s.world.volume, Live), None)]
    && s.world.results == [] && s.world.offered == {}
  }
}
