/** What a session does for its user: which requests are sent, which replies act, which
    searches and connections begin. Safety would also hold of a session that refuses them all. */
module SessionProgress {
  import opened Optional
  import opened SystemTime

  /** A current request of another kind is outstanding. */
  predicate OtherInFlight(s: Session, k: Kind) {
    exists i | 0 <= i < |s.calls| :: Current(s, s.calls[i]) && s.calls[i].kind != k
  }

  /** One call of this kind is added, newer than every other of its kind, and supersedes them;
      nothing completes. */
  predicate Sent(s: Session, s': Session, k: Kind) {
    && |s'.calls| == |s.calls| + 1 && s'.calls[..|s.calls|] == s.calls
    && s'.calls[|s.calls|].kind == k && Current(s', s'.calls[|s.calls|])
    && (forall r <- s.calls + s.applied | r.kind == k ::
          r.generation < s'.calls[|s.calls|].generation && !Current(s', r))
    && s'.applied == s.applied && s'.searches == s.searches && s'.connecting == s.connecting
    && s'.panel == s.panel && s'.attached == s.attached && !s'.fault
  }

  /** How a request is answered: it is sent exactly when the panel has the service and no
      current request of another kind is outstanding, and otherwise nothing happens. */
  predicate Answers(s: Session, s': Session, k: Kind) {
    if s.panel && s.attached && !OtherInFlight(s, k) then Sent(s, s', k) else s' == s
  }

  lemma RequestIsAnswered(s: Session, k: Kind)
    requires Sound(s)
    ensures Answers(s, Begun(s, k), k)
  {
    var s' := Begun(s, k);
    forall l: Kind | l != k
      ensures s.At(l).cancellable ==> OtherInFlight(s, k)
    {
      assert s.At(l).cancellable <==> InFlight(s, l);
      if InFlight(s, l) {
        var i :| 0 <= i < |s.calls| && s.calls[i] == Request(l, s.At(l).generation);
        assert Current(s, s.calls[i]);
      }
    }
    assert s.At(Timezone) == s.timezone && s.At(Ntp) == s.ntp && s.At(Manual) == s.manual;
    if i: nat :| i < |s.calls| && Current(s, s.calls[i]) && s.calls[i].kind != k && s.panel {
      assert InFlight(s, s.calls[i].kind);
    }
    if s' != s {
      forall r <- s.calls + s.applied | r.kind == k ensures r.generation <= s.At(k).generation {
        assert r in s.calls || r in s.applied;
      }
    }
  }

  lemma StepKeepsGenerations(s: Session, e: Event, k: Kind)
    ensures Step(s, e).At(k).generation >= s.At(k).generation
    ensures Step(s, e).searchGeneration >= s.searchGeneration
  {
  }

  lemma {:induction false} GenerationsGrow(events: seq<Event>, n: nat, k: Kind)
    requires n <= |events|
    ensures Run(events).At(k).generation >= Run(events[..n]).At(k).generation
    ensures Run(events).searchGeneration >= Run(events[..n]).searchGeneration
    decreases |events|
  {
    if n == |events| {
      assert events[..n] == events;
    } else {
      var before := events[..|events| - 1];
      assert before[..n] == events[..n];
      GenerationsGrow(before, n, k);
      StepKeepsGenerations(Run(before), events[|events| - 1], k);
    }
  }

  /** In every run a request is sent exactly when the panel has the service and no current
      request of another kind is outstanding; then it is newer than every request of its kind
      there ever was. */
  lemma RequestsAreSent(events: seq<Event>, k: Kind)
    ensures
      var s, s' := Run(events), Run(events + [Begin(k)]);
      && Answers(s, s', k)
      && (s' != s ==>
            forall n, r | 0 <= n <= |events| && r in Run(events[..n]).calls && r.kind == k ::
              r.generation < s'.calls[|s.calls|].generation)
  {
    RunOneMore(events, Begin(k));
    RunIsSound(events);
    var s := Run(events);
    RequestIsAnswered(s, k);
    if Run(events + [Begin(k)]) != s {
      forall n, r | 0 <= n <= |events| && r in Run(events[..n]).calls && r.kind == k
        ensures r.generation <= s.At(k).generation
      {
        RunIsSound(events[..n]);
        GenerationsGrow(events, n, k);
      }
    }
  }

  /** The reply to a current request acts on the panel, and leaves no current request behind,
      so that one of any kind can be made. */
  lemma CurrentReplyActs(events: seq<Event>, i: nat)
    requires i < |Run(events).calls| && Current(Run(events), Run(events).calls[i])
    ensures
      var s, s' := Run(events), Run(events + [Reply(i)]);
      && s'.applied == s.applied + [s.calls[i]] && s'.calls == Without(s.calls, i)
      && s'.panel && s'.attached == s.attached && s'.searches == s.searches
      && (forall r <- s'.calls :: !Current(s', r))
      && (forall k: Kind :: !OtherInFlight(s', k))
  {
    RunOneMore(events, Reply(i));
    RunIsSound(events);
    ProtectedOperations(events);
    var s, s' := Run(events), Run(events + [Reply(i)]);
    forall j | 0 <= j < |s'.calls| ensures !Current(s', s'.calls[j]) {
      var n := if j < i then j else j + 1;
      assert s'.calls[j] == s.calls[n] && n != i;
      assert forall k: Kind :: s'.At(k).generation == s.At(k).generation;
    }
  }

  predicate SearchesOld(s: Session) {
    forall i | 0 <= i < |s.searches| :: s.searches[i] <= s.searchGeneration
  }

  lemma RequestsKeepSearches(s: Session, k: Kind, i: nat)
    ensures Begun(s, k).searches == s.searches && Begun(s, k).searchGeneration == s.searchGeneration
    ensures Replied(s, i).searches == s.searches
    ensures Replied(s, i).searchGeneration == s.searchGeneration
  {
  }

  lemma LifeKeepsSearches(s: Session, ok: bool)
    ensures Connecting(s).searches == s.searches && Connecting(s).searchGeneration == s.searchGeneration
    ensures Connected(s, ok).searches == s.searches
    ensures Connected(s, ok).searchGeneration == s.searchGeneration
    ensures Notified(s).searches == s.searches && Notified(s).searchGeneration == s.searchGeneration
    ensures Freed(s).searches == s.searches && Freed(s).searchGeneration == s.searchGeneration
  {
  }

  lemma StepKeepsSearchesOld(s: Session, e: Event)
    requires SearchesOld(s)
    ensures SearchesOld(Step(s, e))
  {
    match e
    case Search => assert Step(s, e) == Searching(s);
    case SearchReply(i) => assert Step(s, e) == Searched(s, i);
    case Begin(k) => RequestsKeepSearches(s, k, 0);
    case Reply(i) => RequestsKeepSearches(s, Manual, i);
    case Connection(ok) => LifeKeepsSearches(s, ok);
    case Connect => LifeKeepsSearches(s, true);
    case Notify => LifeKeepsSearches(s, true);
    case Free => LifeKeepsSearches(s, true);
  }

  lemma {:induction false} SearchesAreOld(events: seq<Event>)
    ensures SearchesOld(Run(events))
  {
    if events != [] {
      SearchesAreOld(events[..|events| - 1]);
      StepKeepsSearchesOld(Run(events[..|events| - 1]), events[|events| - 1]);
    }
  }

  /** A search on a living panel begins, with a number no search ever had before. */
  lemma SearchBegins(events: seq<Event>)
    ensures
      var s, s' := Run(events), Run(events + [Search]);
      if s.panel then
        && s'.searches == s.searches + [s'.searchGeneration] && s'.calls == s.calls
        && forall n, g | 0 <= n <= |events| && g in Run(events[..n]).searches ::
             g < s'.searchGeneration
      else s' == s
  {
    RunOneMore(events, Search);
    forall n, g | 0 <= n <= |events| && g in Run(events[..n]).searches
      ensures g <= Run(events).searchGeneration
    {
      SearchesAreOld(events[..n]);
      GenerationsGrow(events, n, Manual);
    }
  }

  /** A living panel without the service tries to connect unless it already does, and has the
      service exactly when the attempt succeeds; a connected one does not try again. */
  lemma ConnectionIsMade(events: seq<Event>, ok: bool)
    ensures
      var s, s' := Run(events), Run(events + [Connect]);
      if s.panel && !s.attached && s.connecting == 0 then
        && s'.connecting == 1 && s'.panel && !s'.attached
        && Connected(s', ok).attached == ok && Connected(s', ok).connecting == 0
      else s' == s
  {
    RunOneMore(events, Connect);
    RunIsSound(events);
  }
}
