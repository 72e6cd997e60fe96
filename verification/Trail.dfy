/** Runs of one process acting alone, built up one primitive at a time, for the runs that show
    where a claim fails. Each lemma names the effect of its primitive. */
module Trail {
  import opened Optional
  import opened Temporal
  import opened Disk
  import opened Protocol

  datatype Trail = Trail(world: World, task: Task, outs: seq<Outcome>, at: Move)

  /** The trail is what the step program of its task does with its outcomes. */
  predicate Faithful(tr: Trail) {
    tr.at == Alone(tr.world, 0, Entry(tr.task), tr.outs)
  }

  /** The same run, some primitives later. */
  predicate Extends(r: Trail, tr: Trail) {
    Faithful(r) && r.world == tr.world && r.task == tr.task
  }

  lemma Fresh(world: World, task: Task) returns (tr: Trail)
    ensures Faithful(tr) && tr.world == world && tr.task == task
    ensures tr.at == Move(world, Entry(task))
  {
    tr := Trail(world, task, [], Move(world, Entry(task)));
  }

  lemma Onward(tr: Trail, o: Outcome) returns (r: Trail)
    requires Faithful(tr)
    ensures Extends(r, tr) && r.at == Next(tr.at.world, tr.at.pc, Act(0, o))
  {
    assert (tr.outs + [o])[..|tr.outs|] == tr.outs;
    r := Trail(tr.world, tr.task, tr.outs + [o], Next(tr.at.world, tr.at.pc, Act(0, o)));
  }

  // ----- One lemma per primitive, naming the effect

  lemma BeginOn(tr: Trail, o: Outcome) returns (r: Trail)
    requires Faithful(tr) && tr.at.pc.Begin? && !o.Crash?
    ensures Extends(r, tr) && r.at == TakeLocality(tr.at.world, 0, o, tr.at.pc.task)
  {
    r := Onward(tr, o);
  }

  lemma InspectOn(tr: Trail, o: Outcome) returns (r: Trail)
    requires Faithful(tr) && tr.at.pc.Inspect? && !o.Crash?
    ensures Extends(r, tr) && r.at == DoInspect(tr.at.world, o, tr.at.pc.task)
  {
    r := Onward(tr, o);
  }

  lemma StageOn(tr: Trail, o: Outcome) returns (r: Trail)
    requires Faithful(tr) && tr.at.pc.Stage? && !o.Crash?
    ensures Extends(r, tr) && r.at == DoStage(tr.at.world, o, tr.at.pc.task, tr.at.pc.early)
  {
    r := Onward(tr, o);
  }

  lemma WantPolicyOn(tr: Trail, o: Outcome) returns (r: Trail)
    requires Faithful(tr) && tr.at.pc.WantPolicy? && !o.Crash?
    ensures Extends(r, tr) && r.at == TakePolicy(tr.at.world, 0, o, tr.at.pc.task)
  {
    r := Onward(tr, o);
  }

  lemma LoadOn(tr: Trail, o: Outcome) returns (r: Trail)
    requires Faithful(tr) && tr.at.pc.Load? && !o.Crash?
    ensures Extends(r, tr) && r.at == DoLoad(tr.at.world, o, tr.at.pc.task)
  {
    r := Onward(tr, o);
  }

  lemma SaveOn(tr: Trail, o: Outcome) returns (r: Trail)
    requires Faithful(tr) && tr.at.pc.Save? && !o.Crash?
    ensures Extends(r, tr) && r.at == DoSave(tr.at.world, o, tr.at.pc.task, tr.at.pc.base)
  {
    r := Onward(tr, o);
  }

  lemma PublishOn(tr: Trail, o: Outcome) returns (r: Trail)
    requires Faithful(tr) && tr.at.pc.Publish? && !o.Crash?
    ensures Extends(r, tr) && r.at == DoPublish(tr.at.world, o, tr.at.pc.task, tr.at.pc.base)
  {
    r := Onward(tr, o);
  }

  lemma RollbackOn(tr: Trail, o: Outcome) returns (r: Trail)
    requires Faithful(tr) && tr.at.pc.Rollback? && !o.Crash?
    ensures Extends(r, tr) && r.at == DoRollback(tr.at.world, o, tr.at.pc.task, tr.at.pc.base)
  {
    r := Onward(tr, o);
  }

  lemma DiscardOn(tr: Trail, o: Outcome) returns (r: Trail)
    requires Faithful(tr) && tr.at.pc.Discard? && !o.Crash?
    ensures Extends(r, tr) && r.at == DoDiscard(tr.at.world, o, tr.at.pc.task, tr.at.pc.locked)
  {
    r := Onward(tr, o);
  }

  lemma UnlockOn(tr: Trail, o: Outcome) returns (r: Trail)
    requires Faithful(tr) && tr.at.pc.Unlock? && !o.Crash?
    ensures Extends(r, tr) && r.at == Release(tr.at.world, tr.at.pc.task, tr.at.pc.locality, tr.at.pc.policy)
  {
    r := Onward(tr, o);
  }

  lemma SurveyOn(tr: Trail, o: Outcome) returns (r: Trail)
    requires Faithful(tr) && tr.at.pc.Survey? && !o.Crash?
    ensures Extends(r, tr) && r.at == DoSurvey(tr.at.world, o, tr.at.pc.task)
  {
    r := Onward(tr, o);
  }

  lemma SurveyMetaOn(tr: Trail, o: Outcome) returns (r: Trail)
    requires Faithful(tr) && tr.at.pc.SurveyMeta? && tr.at.pc.task.FollowZone? && !o.Crash?
    ensures Extends(r, tr) && r.at == DoSurveyMeta(tr.at.world, o, tr.at.pc.task, tr.at.pc.seen)
  {
    r := Onward(tr, o);
  }

  lemma CrashOn(tr: Trail) returns (r: Trail)
    requires Faithful(tr)
    ensures Extends(r, tr) && r.at == Die(tr.at.world, tr.at.pc)
  {
    r := Onward(tr, Crash);
  }
}
