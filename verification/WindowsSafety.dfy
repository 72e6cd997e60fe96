/** What every interleaving of savers, clearers and loaders keeps. */
module WindowsSafety {
  import opened Optional
  import opened Bytes
  import opened WindowsPublication

  // ----- Calls and the history

  /** The changes that `author` made after position `since`. */
  function Mine(h: seq<Entry>, since: nat, author: nat): seq<Option<Text>> {
    if |h| <= since + 1 then []
    else
      Mine(h[..|h| - 1], since, author)
      + (if h[|h| - 1].author == Some(author) then [h[|h| - 1].content] else [])
  }

  predicate Held(h: seq<Entry>, since: nat, content: Option<Text>) {
    exists i | since <= i < |h| :: h[i].content == content
  }

  predicate HeldUnusable(h: seq<Entry>, since: nat) {
    exists i | since <= i < |h| ::
      h[i].content.None? || |h[i].content.value| == 0 || |h[i].content.value| >= CAPACITY
  }

  /** A finished call told the truth about the live path while it ran. */
  predicate Honest(h: seq<Entry>, r: Result) {
    && r.since < r.end <= |h|
    && (match r
        case Saved(pid, since, end, doc, ok) =>
          Mine(h[..end], since, pid) == if ok then [Some(doc)] else []
        case Cleared(pid, since, end, ok) =>
          if ok then Held(h[..end], since, None) else Mine(h[..end], since, pid) == []
        case Loaded(pid, since, end, answer) =>
          && Mine(h[..end], since, pid) == []
          && (match answer
              case Failed => true
              case Unusable => HeldUnusable(h[..end], since)
              case Read(text) => Held(h[..end], since, Some(text))))
  }

  // ----- The invariant

  predicate Owns(pc: Pc) {
    pc.Writing? || pc.Flushing? || pc.Moving? || pc.Removing?
  }

  predicate Views(pc: Pc) {
    pc.Measuring? || pc.Reading?
  }

  predicate Placed(v: Volume) {
    && (forall n <- v.dir :: v.dir[n] < |v.files|)
    && (forall m <- v.dir, n <- v.dir :: v.dir[m] == v.dir[n] ==> m == n)
  }

  /** A saver's private file holds what it has written so far. */
  predicate Staged(v: Volume, pc: Pc) {
    Owns(pc) ==>
      && pc.name.Private? && pc.name in v.dir
      && (!pc.Removing? ==>
            && v.dir[pc.name] == pc.id && pc.id < |v.files|
            && v.files[pc.id] == (if pc.Writing? && pc.count < |pc.doc| then pc.doc[..pc.count]
                                  else pc.doc))
      && (pc.Writing? ==> pc.count <= |pc.doc|)
  }

  /** A loader's file is out of every writer's reach and was live during the call. */
  predicate Viewed(w: World, pc: Pc) {
    Views(pc) ==>
      && pc.id < |w.volume.files|
      && (forall n <- w.volume.dir :: n.Private? ==> w.volume.dir[n] != pc.id)
      && Held(w.history, pc.since, Some(w.volume.files[pc.id]))
      && (pc.Reading? ==> pc.size == |w.volume.files[pc.id]|)
  }

  /** A running call has changed nothing yet, except a clear past its commit point. */
  predicate Timely(h: seq<Entry>, pid: nat, pc: Pc) {
    !pc.Idle? ==>
      && pc.since < |h|
      && (if pc.ClearDeleting? then Held(h, pc.since, None) else Mine(h, pc.since, pid) == [])
  }

  predicate Holds(w: World, pid: nat, pc: Pc) {
    Staged(w.volume, pc) && Viewed(w, pc) && Timely(w.history, pid, pc)
  }

  predicate Apart(a: Pc, b: Pc) {
    Owns(a) && Owns(b) ==> a.name != b.name
  }

  /** The live path is what the history says, and only ever held whole documents: the first
      content, or one that some saver offered. */
  predicate Chronicled(w: World) {
    && w.history != [] && w.history[|w.history| - 1].content == Contents(w.volume, Live)
    && (forall e <- w.history :: e.content.Some? ==>
          e.content == w.history[0].content || e.content.value in w.offered)
  }

  predicate Offered(w: World, pc: Pc) {
    pc.Creating? || Owns(pc) ==> pc.doc in w.offered
  }

  predicate Sound(s: System) {
    && Placed(s.world.volume) && Chronicled(s.world)
    && (forall p | 0 <= p < |s.procs| :: Holds(s.world, p, s.procs[p]) && Offered(s.world, s.procs[p]))
    && (forall p, q | 0 <= p < q < |s.procs| :: Apart(s.procs[p], s.procs[q]))
    && (forall r <- s.world.results :: Honest(s.world.history, r))
  }

  // ----- The history only grows

  lemma MineAfter(h: seq<Entry>, e: Entry, since: nat, author: nat)
    requires since < |h|
    ensures Mine(h + [e], since, author)
              == Mine(h, since, author) + (if e.author == Some(author) then [e.content] else [])
  {
    assert (h + [e])[..|h|] == h;
  }

  lemma HonestAfter(h: seq<Entry>, e: Entry, r: Result)
    requires Honest(h, r)
    ensures Honest(h + [e], r)
  {
    assert (h + [e])[..r.end] == h[..r.end];
  }

  lemma HeldAfter(h: seq<Entry>, e: Entry, since: nat, content: Option<Text>)
    requires since <= |h|
    ensures Held(h, since, content) ==> Held(h + [e], since, content)
    ensures e.content == content ==> Held(h + [e], since, content)
  {
    if Held(h, since, content) {
      var i :| since <= i < |h| && h[i].content == content;
      assert (h + [e])[i].content == content;
    }
    assert (h + [e])[|h|] == e;
  }

  // ----- One step: the volume

  lemma StepKeepsPlaced(w: World, pc: Pc, e: Event)
    requires Placed(w.volume) && Staged(w.volume, pc)
    ensures Placed(Next(w, pc, e).world.volume)
  {
  }

  lemma StepKeepsChronicle(w: World, pc: Pc, e: Event)
    requires Placed(w.volume) && Staged(w.volume, pc) && Chronicled(w) && Offered(w, pc)
    ensures Chronicled(Next(w, pc, e).world)
  {
  }

  lemma StepKeepsStaged(w: World, pc: Pc, e: Event)
    requires Placed(w.volume) && Staged(w.volume, pc)
    ensures Staged(Next(w, pc, e).world.volume, Next(w, pc, e).pc)
  {
  }

  lemma StepLeavesStaged(w: World, pc: Pc, e: Event, other: Pc)
    requires Placed(w.volume) && Staged(w.volume, pc) && Staged(w.volume, other) && Apart(pc, other)
    ensures Staged(Next(w, pc, e).world.volume, other) && Apart(Next(w, pc, e).pc, other)
  {
  }

  // ----- One step: the history and the readers

  /** The history is untouched or has one more entry, by the process that moved. */
  lemma StepExtends(w: World, pc: Pc, e: Event)
    ensures
      var w' := Next(w, pc, e).world;
      w'.history == w.history
      || (w'.history == w.history + [w'.history[|w.history|]]
          && w'.history[|w.history|].author == Some(e.pid)
          && (pc.Moving? || pc.ClearMoving?))
  {
  }

  lemma StepLeavesTimely(w: World, pc: Pc, e: Event, q: nat, other: Pc)
    requires Timely(w.history, q, other) && q != e.pid
    ensures Timely(Next(w, pc, e).world.history, q, other)
  {
    var h' := Next(w, pc, e).world.history;
    StepExtends(w, pc, e);
    if !other.Idle? && h' != w.history {
      MineAfter(w.history, h'[|w.history|], other.since, q);
      HeldAfter(w.history, h'[|w.history|], other.since, None);
    }
  }

  lemma StepKeepsTimely(w: World, pc: Pc, e: Event)
    requires w.history != [] && Timely(w.history, e.pid, pc)
    ensures Timely(Next(w, pc, e).world.history, e.pid, Next(w, pc, e).pc)
  {
    if pc.ClearMoving? {
      HeldAfter(w.history, Entry(None, Some(e.pid)), pc.since, None);
    }
  }

  lemma StepLeavesViewed(w: World, pc: Pc, e: Event, other: Pc)
    requires Placed(w.volume) && Staged(w.volume, pc)
    requires Viewed(w, other) && (Views(other) ==> other.since < |w.history|)
    ensures Viewed(Next(w, pc, e).world, other)
  {
    var w' := Next(w, pc, e).world;
    if Views(other) {
      assert w'.volume.files[other.id] == w.volume.files[other.id];
      StepExtends(w, pc, e);
      if w'.history != w.history {
        HeldAfter(w.history, w'.history[|w.history|], other.since, Some(w.volume.files[other.id]));
      }
    }
  }

  lemma StepKeepsViewed(w: World, pc: Pc, e: Event)
    requires Placed(w.volume) && Chronicled(w) && Viewed(w, pc)
    requires !pc.Idle? ==> pc.since < |w.history|
    ensures Viewed(Next(w, pc, e).world, Next(w, pc, e).pc)
  {
    if pc.Opening? {
      assert w.history[|w.history| - 1].content == Contents(w.volume, Live);
    }
  }

  // ----- One step: the answers

  /** A step finishes at most one call. */
  lemma StepAnswers(w: World, pc: Pc, e: Event) returns (r: Option<Result>)
    ensures Next(w, pc, e).world.results == w.results + (if r.Some? then [r.value] else [])
    ensures r.Some? ==> e.Act? && !e.outcome.Crash? && !pc.Idle?
  {
    var results := Next(w, pc, e).world.results;
    r := if results == w.results then None else Some(results[|w.results|]);
    assert w.results + [] == w.results;
  }

  lemma SaverIsHonest(w: World, pc: Pc, e: Event, r: Result)
    requires Placed(w.volume) && Staged(w.volume, pc) && Timely(w.history, e.pid, pc)
    requires pc.Creating? || pc.Moving? || pc.Removing?
    requires Next(w, pc, e).world.results == w.results + [r]
    ensures Honest(Next(w, pc, e).world.history, r)
  {
    var h := Next(w, pc, e).world.history;
    assert h[..|h|] == h;
    assert (w.results + [r])[|w.results|] == r;
    if h != w.history {
      MineAfter(w.history, h[|w.history|], pc.since, e.pid);
    }
  }

  lemma ClearerIsHonest(w: World, pc: Pc, e: Event, r: Result)
    requires Placed(w.volume) && Chronicled(w) && Timely(w.history, e.pid, pc)
    requires pc.ClearMoving? || pc.ClearDeleting?
    requires Next(w, pc, e).world.results == w.results + [r]
    ensures Honest(Next(w, pc, e).world.history, r)
  {
    var h := Next(w, pc, e).world.history;
    assert h[..|h|] == h;
    assert (w.results + [r])[|w.results|] == r;
    assert h == w.history && h[|h| - 1].content == Contents(w.volume, Live);
  }

  lemma LoaderIsHonest(w: World, pc: Pc, e: Event, r: Result)
    requires Placed(w.volume) && Chronicled(w) && Viewed(w, pc) && Timely(w.history, e.pid, pc)
    requires pc.Opening? || pc.Measuring? || pc.Reading?
    requires Next(w, pc, e).world.results == w.results + [r]
    ensures Honest(Next(w, pc, e).world.history, r)
  {
    var h := Next(w, pc, e).world.history;
    assert h[..|h|] == h;
    assert (w.results + [r])[|w.results|] == r;
    assert h == w.history;
    if pc.Opening? {
      assert h[|h| - 1].content == Contents(w.volume, Live);
    } else {
      var text := w.volume.files[pc.id];
      assert text[..|text|] == text;
    }
  }

  lemma StepKeepsResults(w: World, pc: Pc, e: Event)
    requires Placed(w.volume) && Chronicled(w) && Staged(w.volume, pc) && Viewed(w, pc)
    requires Timely(w.history, e.pid, pc)
    requires forall r <- w.results :: Honest(w.history, r)
    ensures forall r <- Next(w, pc, e).world.results :: Honest(Next(w, pc, e).world.history, r)
  {
    var last := StepAnswers(w, pc, e);
    if last.Some? {
      if pc.Creating? || pc.Moving? || pc.Removing? {
        SaverIsHonest(w, pc, e, last.value);
      } else if pc.ClearMoving? || pc.ClearDeleting? {
        ClearerIsHonest(w, pc, e, last.value);
      } else if pc.Opening? || pc.Measuring? || pc.Reading? {
        LoaderIsHonest(w, pc, e, last.value);
      } else {
        WorkingIsSilent(w, pc, e);
      }
    }
    OldAnswersStay(w, pc, e);
  }

  lemma WorkingIsSilent(w: World, pc: Pc, e: Event)
    requires pc.Writing? || pc.Flushing?
    ensures Next(w, pc, e).world.results == w.results
  {
  }

  lemma OldAnswersStay(w: World, pc: Pc, e: Event)
    requires forall r <- w.results :: Honest(w.history, r)
    ensures forall r <- w.results :: Honest(Next(w, pc, e).world.history, r)
  {
    StepExtends(w, pc, e);
    var h' := Next(w, pc, e).world.history;
    if h' != w.history {
      forall r <- w.results
        ensures Honest(h', r)
      {
        HonestAfter(w.history, h'[|w.history|], r);
      }
    }
  }

  // ----- Runs

  lemma StepKeepsOffered(w: World, pc: Pc, e: Event, other: Pc)
    requires Offered(w, pc) && Offered(w, other)
    ensures Offered(Next(w, pc, e).world, Next(w, pc, e).pc)
    ensures Offered(Next(w, pc, e).world, other)
  {
  }

  lemma StepKeepsSound(s: System, e: Event)
    requires Sound(s)
    ensures Sound(Step(s, e))
  {
    if e.pid < |s.procs| {
      var w, pc := s.world, s.procs[e.pid];
      StepKeepsPlaced(w, pc, e);
      StepKeepsChronicle(w, pc, e);
      StepKeepsResults(w, pc, e);
      StepKeepsStaged(w, pc, e);
      StepKeepsViewed(w, pc, e);
      StepKeepsTimely(w, pc, e);
      StepKeepsOffered(w, pc, e, pc);
      forall q | 0 <= q < |s.procs| && q != e.pid
        ensures Holds(Next(w, pc, e).world, q, s.procs[q])
        ensures Offered(Next(w, pc, e).world, s.procs[q])
        ensures Apart(Next(w, pc, e).pc, s.procs[q])
      {
        assert Apart(pc, s.procs[q]);
        StepLeavesStaged(w, pc, e, s.procs[q]);
        StepLeavesViewed(w, pc, e, s.procs[q]);
        StepLeavesTimely(w, pc, e, q, s.procs[q]);
        StepKeepsOffered(w, pc, e, s.procs[q]);
      }
    }
  }

  lemma StepMovesOne(s: System, e: Event, q: nat)
    requires q < |s.procs|
    ensures |Step(s, e).procs| == |s.procs|
    ensures q != e.pid ==> Step(s, e).procs[q] == s.procs[q]
    ensures q == e.pid ==>
      Step(s, e) == System(Next(s.world, s.procs[q], e).world, s.procs[q := Next(s.world, s.procs[q], e).pc])
  {
  }

  lemma {:induction false} RunIsSound(s: System, events: seq<Event>)
    requires Initial(s)
    ensures Sound(Run(s, events))
  {
    if events == [] {
      forall p | 0 <= p < |s.procs|
        ensures s.procs[p].Idle?
      {
        assert s.procs[p] in s.procs;
      }
    } else {
      RunIsSound(s, events[..|events| - 1]);
      StepKeepsSound(Run(s, events[..|events| - 1]), events[|events| - 1]);
    }
  }

  predicate SavedBy(events: seq<Event>, doc: Text) {
    exists i | 0 <= i < |events| :: events[i].Save? && events[i].doc == doc
  }

  lemma {:induction false} OffersComeFromSaves(s: System, events: seq<Event>, doc: Text)
    requires Initial(s) && doc in Run(s, events).world.offered
    ensures SavedBy(events, doc)
  {
    if events != [] {
      var before, e := events[..|events| - 1], events[|events| - 1];
      if doc in Run(s, before).world.offered {
        OffersComeFromSaves(s, before, doc);
        var i :| 0 <= i < |before| && before[i].Save? && before[i].doc == doc;
        assert events[i] == before[i];
      } else {
        NewOffer(Run(s, before), e, doc);
      }
    }
  }

  lemma NewOffer(s: System, e: Event, doc: Text)
    requires doc in Step(s, e).world.offered && doc !in s.world.offered
    ensures e.Save? && e.doc == doc
  {
  }

  lemma {:induction false} HistoryStartsSame(s: System, events: seq<Event>)
    requires Initial(s)
    ensures |Run(s, events).world.history| > 0
    ensures Run(s, events).world.history[0] == s.world.history[0]
  {
    if events != [] {
      var t, e := Run(s, events[..|events| - 1]), events[|events| - 1];
      HistoryStartsSame(s, events[..|events| - 1]);
      if e.pid < |t.procs| {
        StepExtends(t.world, t.procs[e.pid], e);
      }
    }
  }

  // ----- Main results

  /** Whatever the interleaving and wherever processes died, the live path is absent or holds
      one whole document: the one it started with, or one that some call was asked to save. */
  lemma LivePathIsWhole(s: System, events: seq<Event>)
    requires Initial(s)
    ensures
      var content := Contents(Run(s, events).world.volume, Live);
      content.None? || content == Contents(s.world.volume, Live) || SavedBy(events, content.value)
  {
    RunIsSound(s, events);
    HistoryStartsSame(s, events);
    var w := Run(s, events).world;
    var last := w.history[|w.history| - 1];
    assert last in w.history;
    if last.content.Some? && last.content.value in w.offered {
      OffersComeFromSaves(s, events, last.content.value);
    }
  }

  /** Every finished call was honest: a save that succeeded published its document once and
      changed nothing else, one that failed changed nothing; a successful clear saw the path
      absent; a load returned what the path held at some moment of the call. */
  lemma AnswersAreHonest(s: System, events: seq<Event>, r: Result)
    requires Initial(s) && r in Run(s, events).world.results
    ensures Honest(Run(s, events).world.history, r)
  {
    RunIsSound(s, events);
  }
}
