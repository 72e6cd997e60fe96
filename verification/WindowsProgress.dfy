/** What each Windows file routine achieves when every system call succeeds and nobody else
    moves. */
module WindowsProgress {
  import opened Optional
  import opened Bytes
  import opened WindowsPublication
  import opened WindowsSafety

  /** The process's next `n` system calls, all of them successful. */
  function Ahead(w: World, pid: nat, pc: Pc, serial: nat, n: nat): Move
    decreases n
  {
    if n == 0 then Move(w, pc)
    else
      var m := Advance(w, pid, pc, Ok, serial);
      Ahead(m.world, pid, m.pc, serial, n - 1)
  }

  function Calls(pid: nat, serial: nat, n: nat): seq<Event> {
    seq(n, _ => Act(pid, Ok, serial))
  }

  lemma {:induction false} RunFirst(s: System, e: Event, events: seq<Event>)
    ensures Run(s, [e] + events) == Run(Step(s, e), events)
  {
    var all := [e] + events;
    if events == [] {
      assert all[..0] == [];
      assert Run(s, all[..0]) == s;
    } else {
      assert all[..|all| - 1] == [e] + events[..|events| - 1];
      RunFirst(s, e, events[..|events| - 1]);
    }
  }

  lemma {:induction false} CallsAreAhead(s: System, pid: nat, serial: nat, n: nat)
    requires pid < |s.procs|
    ensures
      var m := Ahead(s.world, pid, s.procs[pid], serial, n);
      Run(s, Calls(pid, serial, n)) == System(m.world, s.procs[pid := m.pc])
    decreases n
  {
    if n > 0 {
      var e := Act(pid, Ok, serial);
      assert Calls(pid, serial, n) == [e] + Calls(pid, serial, n - 1);
      RunFirst(s, e, Calls(pid, serial, n - 1));
      CallsAreAhead(Step(s, e), pid, serial, n - 1);
    }
  }

  lemma {:induction false} Idles(w: World, pid: nat, serial: nat, n: nat)
    ensures Ahead(w, pid, Idle, serial, n) == Move(w, Idle)
  {
    if n > 0 {
      Idles(w, pid, serial, n - 1);
    }
  }

  /** The call `e` and the process's next `n` system calls. */
  function Performed(s: System, e: Event, serial: nat, n: nat): System {
    Run(s, [e] + Calls(e.pid, serial, n))
  }

  lemma PerformedIsAhead(s: System, e: Event, serial: nat, n: nat)
    requires e.pid < |s.procs|
    ensures
      var begun := Next(s.world, s.procs[e.pid], e);
      var m := Ahead(begun.world, e.pid, begun.pc, serial, n);
      Performed(s, e, serial, n) == System(m.world, s.procs[e.pid := m.pc])
  {
    RunFirst(s, e, Calls(e.pid, serial, n));
    CallsAreAhead(Step(s, e), e.pid, serial, n);
  }

  // ----- Saving

  /** The document is published: it is in the live path, and the call says so. */
  predicate Published(w: World, m: Move, pid: nat, doc: Text) {
    && m.pc.Idle? && Contents(m.world.volume, Live) == Some(doc)
    && |m.world.results| == |w.results| + 1 && m.world.results[..|w.results|] == w.results
    && var r := m.world.results[|w.results|];
       r.Saved? && r.pid == pid && r.doc == doc && r.ok
  }

  lemma FromMoving(w: World, pid: nat, pc: Pc, serial: nat, n: nat)
    requires pc.Moving? && Staged(w.volume, pc) && n >= 1
    ensures Published(w, Ahead(w, pid, pc, serial, n), pid, pc.doc)
  {
    Idles(Advance(w, pid, pc, Ok, serial).world, pid, serial, n - 1);
  }

  lemma {:induction false} FromWriting(w: World, pid: nat, pc: Pc, serial: nat, n: nat)
    requires pc.Writing? && Placed(w.volume) && Staged(w.volume, pc)
    requires n >= |pc.doc| - pc.count + 3
    ensures Published(w, Ahead(w, pid, pc, serial, n), pid, pc.doc)
    decreases |pc.doc| - pc.count
  {
    var m := Advance(w, pid, pc, Ok, serial);
    StepKeepsStaged(w, pc, Act(pid, Ok, serial));
    if pc.count >= |pc.doc| {
      assert m.pc.Flushing? && m.world == w;
      var k := Advance(w, pid, m.pc, Ok, serial);
      StepKeepsStaged(w, m.pc, Act(pid, Ok, serial));
      FromMoving(w, pid, k.pc, serial, n - 2);
    } else {
      StepKeepsPlaced(w, pc, Act(pid, Ok, serial));
      FromWriting(m.world, pid, m.pc, serial, n - 1);
    }
  }

  /** A save that meets no failure and a free name publishes its document. */
  lemma SaveSucceeds(s: System, pid: nat, doc: Text, serial: nat, n: nat)
    requires Sound(s) && pid < |s.procs| && s.procs[pid].Idle?
    requires Private(serial) !in s.world.volume.dir && n >= |doc| + 4
    ensures
      var s' := Performed(s, Save(pid, doc), serial, n);
      && s'.procs == s.procs && Contents(s'.world.volume, Live) == Some(doc)
      && |s'.world.results| == |s.world.results| + 1
      && (var r := s'.world.results[|s.world.results|]; r.Saved? && r.pid == pid && r.doc == doc && r.ok)
  {
    PerformedIsAhead(s, Save(pid, doc), serial, n);
    var begun := Next(s.world, s.procs[pid], Save(pid, doc));
    var m := Advance(begun.world, pid, begun.pc, Ok, serial);
    StepKeepsStaged(begun.world, begun.pc, Act(pid, Ok, serial));
    StepKeepsPlaced(begun.world, begun.pc, Act(pid, Ok, serial));
    FromWriting(m.world, pid, m.pc, serial, n - 1);
  }

  // ----- Clearing and loading

  /** A clear that meets no failure leaves the path absent and no tombstone of its own. */
  lemma ClearSucceeds(s: System, pid: nat, serial: nat, n: nat)
    requires pid < |s.procs| && s.procs[pid].Idle? && n >= 2
    ensures
      var s' := Performed(s, Clear(pid), serial, n);
      && s'.procs == s.procs && Live !in s'.world.volume.dir
      && (Live in s.world.volume.dir ==> Tombstone !in s'.world.volume.dir)
      && |s'.world.results| == |s.world.results| + 1
      && (var r := s'.world.results[|s.world.results|]; r.Cleared? && r.pid == pid && r.ok)
  {
    PerformedIsAhead(s, Clear(pid), serial, n);
    var pc := ClearMoving(Now(s.world));
    var m := Advance(s.world, pid, pc, Ok, serial);
    if m.pc.ClearDeleting? {
      Idles(Advance(m.world, pid, m.pc, Ok, serial).world, pid, serial, n - 2);
    } else {
      Idles(m.world, pid, serial, n - 1);
    }
  }

  /** What a load says of the live path. */
  function Verdict(content: Option<Text>): Answer {
    if content.Some? && 0 < |content.value| < CAPACITY then Read(content.value) else Unusable
  }

  /** A load that meets no failure answers with what the path holds, an absent, empty or
      oversized file counting as no policy, and changes nothing. */
  lemma LoadSucceeds(s: System, pid: nat, serial: nat, n: nat)
    requires Placed(s.world.volume) && pid < |s.procs| && s.procs[pid].Idle? && n >= 3
    ensures
      var s' := Performed(s, Load(pid), serial, n);
      && s'.procs == s.procs && s'.world.volume == s.world.volume
      && |s'.world.results| == |s.world.results| + 1
      && (var r := s'.world.results[|s.world.results|];
          r.Loaded? && r.pid == pid && r.answer == Verdict(Contents(s.world.volume, Live)))
  {
    PerformedIsAhead(s, Load(pid), serial, n);
    var pc := Opening(Now(s.world));
    var m := Advance(s.world, pid, pc, Ok, serial);
    if m.pc.Measuring? {
      FromMeasuring(m.world, pid, m.pc, serial, n - 1);
    } else {
      Idles(m.world, pid, serial, n - 1);
    }
  }

  lemma FromMeasuring(w: World, pid: nat, pc: Pc, serial: nat, n: nat)
    requires pc.Measuring? && pc.id < |w.volume.files| && n >= 2
    ensures
      var text := w.volume.files[pc.id];
      Ahead(w, pid, pc, serial, n)
        == Finish(w, Loaded(pid, pc.since, |w.history|, Verdict(Some(text))))
  {
    var text := w.volume.files[pc.id];
    var m := Advance(w, pid, pc, Ok, serial);
    if m.pc.Reading? {
      assert text[..|text|] == text;
      Idles(Advance(m.world, pid, m.pc, Ok, serial).world, pid, serial, n - 2);
    } else {
      Idles(m.world, pid, serial, n - 1);
    }
  }
}
