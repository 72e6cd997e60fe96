/** Protected system-time operations, their asynchronous replies and the two reference
    counts that keep the panel and the service alive for them.

    A session is one panel from construction on. Replies, searches and the service connection
    complete in any order, before or after the panel is freed. */
module SystemTime {
  import opened Optional

  datatype Kind = Timezone | Ntp | Manual

  /** One accepted request: it owns a lifetime reference and its D-Bus call a service one. */
  datatype Request = Request(kind: Kind, generation: nat)

  datatype Slot = Slot(generation: nat, cancellable: bool) {
    function Unless(ended: bool): Slot {
      this.(cancellable := cancellable && !ended)
    }
  }

  /** A reference-counted allocation; using it after it was freed is a fault. */
  datatype Counted = Counted(refs: int, frees: nat, fault: bool) {
    function Ref(): Counted {
      Counted(refs + 1, frees, fault || frees > 0)
    }

    function Unref(): Counted {
      Counted(refs - 1, if refs == 1 then frees + 1 else frees, fault || frees > 0)
    }

    function Touched(): Counted {
      this.(fault := fault || frees > 0)
    }

    /** Freed once, at zero, and never used afterwards. */
    predicate Balanced(owners: nat) {
      refs == owners && frees == (if owners == 0 then 1 else 0) && !fault
    }
  }

  const NEW := Counted(1, 0, false)

  datatype Session = Session(
    panel: bool,               // the panel is allocated
    lifetime: Counted,
    pointer: bool,             // the lifetime still names the panel
    service: Option<Counted>,  // the service object, once it was created
    attached: bool,            // the panel owns the service
    changed: bool,             // the service calls back into the panel
    timezone: Slot, ntp: Slot, manual: Slot,
    connection: bool,          // the connection cancellable
    searchGeneration: nat,
    calls: seq<Request>,       // accepted and not yet completed
    searches: seq<nat>,
    connecting: nat,
    applied: seq<Request>,     // completions that acted on the panel
    fault: bool)               // something acted on a freed panel
  {
    function At(k: Kind): Slot {
      match k
      case Timezone => timezone
      case Ntp => ntp
      case Manual => manual
    }

    function With(k: Kind, slot: Slot): Session {
      this.(timezone := if k == Timezone then slot else timezone,
            ntp := if k == Ntp then slot else ntp,
            manual := if k == Manual then slot else manual)
    }
  }

  function Opened(): Session {
    Session(true, NEW, true, None, false, false,
            Slot(0, false), Slot(0, false), Slot(0, false), false, 0, [], [], 0, [], false)
  }

  function Without<T>(s: seq<T>, i: nat): (r: seq<T>)
    requires i < |s|
    ensures |r| == |s| - 1
    ensures forall j | 0 <= j < |r| :: r[j] == s[if j < i then j else j + 1]
  {
    s[..i] + s[i + 1..]
  }

  // ----- Operations

  /** Another kind has an unresolved request. */
  predicate Blocked(s: Session, k: Kind) {
    || (k != Timezone && s.timezone.cancellable)
    || (k != Ntp && s.ntp.cancellable)
    || (k != Manual && s.manual.cancellable)
  }

  /** A user request: it needs the service, and no other kind in flight. */
  function Begun(s: Session, k: Kind): Session {
    if !s.panel || !s.attached || s.service.None? || Blocked(s, k) then s
    else
      var generation := s.At(k).generation + 1;
      s.With(k, Slot(generation, true)).(
        lifetime := s.lifetime.Ref(),
        service := Some(s.service.value.Ref()),
        calls := s.calls + [Request(k, generation)])
  }

  predicate Current(s: Session, r: Request) {
    s.pointer && r.generation == s.At(r.kind).generation
  }

  /** What a completion does to the panel: nothing unless its request is still current. */
  function Concluded(s: Session, r: Request): Session {
    var acts := Current(s, r);
    s.With(r.kind, s.At(r.kind).Unless(acts)).(
      applied := if acts then s.applied + [r] else s.applied,
      fault := s.fault || (acts && !s.panel))
  }

  /** A reply: its request and its call give their references back. */
  function Replied(s: Session, i: nat): Session {
    if i >= |s.calls| || s.service.None? then s
    else
      Concluded(s, s.calls[i]).(
        lifetime := s.lifetime.Touched().Unref(), service := Some(s.service.value.Unref()),
        calls := Without(s.calls, i))
  }

  function Searching(s: Session): Session {
    if !s.panel then s
    else
      s.(searchGeneration := s.searchGeneration + 1, lifetime := s.lifetime.Ref(),
         searches := s.searches + [s.searchGeneration + 1])
  }

  function Searched(s: Session, i: nat): Session {
    if i >= |s.searches| then s
    else
      var shown := s.pointer && s.searches[i] == s.searchGeneration;
      s.(lifetime := s.lifetime.Touched().Unref(), searches := Without(s.searches, i),
         fault := s.fault || (shown && !s.panel))
  }

  function Connecting(s: Session): Session {
    if !s.panel || s.connection || s.attached then s
    else s.(connection := true, connecting := s.connecting + 1, lifetime := s.lifetime.Ref())
  }

  /** The proxy was built, or could not be. A service nobody waits for is freed at once. */
  function Connected(s: Session, ok: bool): Session {
    if s.connecting == 0 then s
    else
      var s' := s.(connecting := s.connecting - 1, lifetime := s.lifetime.Touched().Unref());
      if !s.pointer then (if ok then s'.(service := Some(NEW.Unref())) else s')
      else if !ok then s'.(connection := false, fault := s.fault || !s.panel)
      else
        s'.(connection := false, service := Some(NEW), attached := true, changed := true,
            fault := s.fault || !s.panel)
  }

  /** A property of the service changed. */
  function Notified(s: Session): Session {
    if s.service.Some? && s.service.value.frees == 0 && s.changed then s.(fault := s.fault || !s.panel)
    else s
  }

  /** Outstanding completions become inert before anything is cancelled or released. */
  function Freed(s: Session): Session {
    if !s.panel then s
    else
      s.(pointer := false, connection := false,
         timezone := s.timezone.(cancellable := false),
         ntp := s.ntp.(cancellable := false),
         manual := s.manual.(cancellable := false),
         service := if s.attached && s.service.Some? then Some(s.service.value.Unref()) else s.service,
         attached := false, changed := s.changed && !s.attached,
         lifetime := s.lifetime.Unref(), panel := false)
  }

  datatype Event =
    | Begin(kind: Kind) | Reply(index: nat) | Search | SearchReply(index: nat)
    | Connect | Connection(ok: bool) | Notify | Free

  function Step(s: Session, e: Event): Session {
    match e
    case Begin(k) => Begun(s, k)
    case Reply(i) => Replied(s, i)
    case Search => Searching(s)
    case SearchReply(i) => Searched(s, i)
    case Connect => Connecting(s)
    case Connection(ok) => Connected(s, ok)
    case Notify => Notified(s)
    case Free => Freed(s)
  }

  function Run(events: seq<Event>): Session {
    if events == [] then Opened() else Step(Run(events[..|events| - 1]), events[|events| - 1])
  }

  // ----- What holds throughout a session

  function Count(b: bool): nat {
    if b then 1 else 0
  }

  /** The reference counts say exactly who may still need the object. */
  predicate Counting(s: Session) {
    && s.lifetime.Balanced(Count(s.panel) + |s.calls| + |s.searches| + s.connecting)
    && (match s.service
        case Some(service) => service.Balanced(Count(s.attached) + |s.calls|)
        case None => s.calls == [] && !s.attached)
    && s.pointer == s.panel && s.changed == s.attached && !s.fault
    && (s.panel ==> s.attached == s.service.Some?) && (s.attached ==> s.panel)
    && s.connecting <= 1 && (s.panel ==> s.connection == (s.connecting == 1))
    && (s.connecting == 1 ==> s.service.None?)
  }

  /** A request of the kind's current generation is outstanding. */
  predicate InFlight(s: Session, k: Kind) {
    s.panel && Request(k, s.At(k).generation) in s.calls
  }

  predicate Tokens(s: Session) {
    forall k: Kind :: s.At(k).cancellable <==> InFlight(s, k)
  }

  predicate Exclusive(s: Session) {
    forall k: Kind, l: Kind | s.At(k).cancellable && s.At(l).cancellable :: k == l
  }

  /** Outstanding requests are distinct and none is from the future. */
  predicate Numbered(s: Session) {
    && (forall r <- s.calls :: r.generation <= s.At(r.kind).generation)
    && (forall i, j | 0 <= i < j < |s.calls| :: s.calls[i] != s.calls[j])
  }

  /** Completions that acted came in the order of their requests, none of them twice. */
  predicate InOrder(s: Session) {
    && (forall r <- s.applied :: r.generation <= s.At(r.kind).generation && r !in s.calls)
    && (forall i, j | 0 <= i < j < |s.applied| && s.applied[i].kind == s.applied[j].kind ::
          s.applied[i].generation < s.applied[j].generation)
  }

  predicate Orderly(s: Session) {
    Tokens(s) && Exclusive(s) && Numbered(s) && InOrder(s)
  }

  lemma BeginKeepsCounting(s: Session, k: Kind)
    requires Counting(s)
    ensures Counting(Begun(s, k))
  {
  }

  lemma ReplyKeepsCounting(s: Session, i: nat)
    requires Counting(s)
    ensures Counting(Replied(s, i))
  {
  }

  lemma SearchKeepsCounting(s: Session, i: nat)
    requires Counting(s)
    ensures Counting(Searching(s)) && Counting(Searched(s, i))
  {
  }

  lemma ConnectKeepsCounting(s: Session, ok: bool)
    requires Counting(s)
    ensures Counting(Connecting(s)) && Counting(Connected(s, ok))
  {
  }

  lemma FreeKeepsCounting(s: Session)
    requires Counting(s)
    ensures Counting(Freed(s)) && Counting(Notified(s))
  {
  }

  lemma StepKeepsCounting(s: Session, e: Event)
    requires Counting(s)
    ensures Counting(Step(s, e))
  {
    match e
    case Begin(k) => BeginKeepsCounting(s, k);
    case Reply(i) => ReplyKeepsCounting(s, i);
    case Search => SearchKeepsCounting(s, 0);
    case SearchReply(i) => SearchKeepsCounting(s, i);
    case Connect => ConnectKeepsCounting(s, true);
    case Connection(ok) => ConnectKeepsCounting(s, ok);
    case Notify => FreeKeepsCounting(s);
    case Free => FreeKeepsCounting(s);
  }

  lemma WithoutKeeps<T>(s: seq<T>, i: nat, x: T)
    requires i < |s|
    requires forall i, j | 0 <= i < j < |s| :: s[i] != s[j]
    ensures x in Without(s, i) <==> x in s && x != s[i]
  {
    var r := Without(s, i);
    if x in s && x != s[i] {
      var j :| 0 <= j < |s| && s[j] == x;
      assert r[if j < i then j else j - 1] == x;
    }
  }

  // ----- A request

  lemma BeginKeepsTokens(s: Session, k: Kind)
    requires Counting(s) && Tokens(s) && Exclusive(s) && Numbered(s)
    ensures Tokens(Begun(s, k)) && Exclusive(Begun(s, k))
  {
    var s' := Begun(s, k);
    if s' != s {
      var r := Request(k, s.At(k).generation + 1);
      assert s'.calls[|s.calls|] == r;
      forall l: Kind
        ensures s'.At(l).cancellable == (l == k)
        ensures InFlight(s', l) == (l == k)
      {
        assert l != k ==> !s.At(l).cancellable && !InFlight(s, l);
      }
    }
  }

  lemma BeginKeepsOrder(s: Session, k: Kind)
    requires Counting(s) && Numbered(s) && InOrder(s)
    ensures Numbered(Begun(s, k)) && InOrder(Begun(s, k))
  {
  }

  // ----- A reply

  lemma ReplyKeepsTokens(s: Session, i: nat)
    requires Counting(s) && Tokens(s) && Exclusive(s) && Numbered(s)
    ensures Tokens(Replied(s, i)) && Exclusive(Replied(s, i))
  {
    var s' := Replied(s, i);
    if i < |s.calls| {
      var r := s.calls[i];
      forall k: Kind
        ensures s'.At(k).cancellable <==> InFlight(s', k)
        ensures s'.At(k).cancellable ==> s.At(k).cancellable
      {
        assert s'.At(k).generation == s.At(k).generation;
        WithoutKeeps(s.calls, i, Request(k, s.At(k).generation));
        assert s.At(k).cancellable <==> InFlight(s, k);
      }
    }
  }

  lemma ReplyKeepsNumbered(s: Session, i: nat)
    requires Counting(s) && Numbered(s)
    ensures Numbered(Replied(s, i))
  {
  }

  /** The reply that acts belongs to the newest request of its kind. */
  lemma ReplyKeepsOrder(s: Session, i: nat)
    requires Counting(s) && Numbered(s) && InOrder(s)
    ensures InOrder(Replied(s, i))
  {
    var s' := Replied(s, i);
    if i < |s.calls| {
      var r := s.calls[i];
      forall x <- s'.applied
        ensures x.generation <= s'.At(x.kind).generation && x !in s'.calls
      {
        WithoutKeeps(s.calls, i, x);
      }
      if Current(s, r) {
        forall j | 0 <= j < |s.applied| && s.applied[j].kind == r.kind
          ensures s.applied[j].generation < r.generation
        {
          assert s.applied[j] in s.applied;
        }
      }
    }
  }

  // ----- Everything else

  lemma FreeKeepsOrderly(s: Session)
    requires Counting(s) && Orderly(s)
    ensures Orderly(Freed(s))
  {
    var s' := Freed(s);
    assert forall k: Kind :: s'.At(k).generation == s.At(k).generation;
    if s.panel {
      assert forall k: Kind :: !s'.At(k).cancellable;
    }
  }

  lemma OthersKeepOrderly(s: Session, e: Event)
    requires Counting(s) && Orderly(s) && !e.Begin? && !e.Reply? && !e.Free?
    ensures Orderly(Step(s, e))
  {
    var s' := Step(s, e);
    assert s'.calls == s.calls && s'.applied == s.applied && s'.panel == s.panel;
    forall k: Kind
      ensures s'.At(k) == s.At(k) && (InFlight(s', k) == InFlight(s, k))
    {
    }
  }

  lemma StepKeepsOrderly(s: Session, e: Event)
    requires Counting(s) && Orderly(s)
    ensures Orderly(Step(s, e))
  {
    if e.Begin? {
      BeginKeepsTokens(s, e.kind);
      BeginKeepsOrder(s, e.kind);
    } else if e.Reply? {
      ReplyKeepsTokens(s, e.index);
      ReplyKeepsNumbered(s, e.index);
      ReplyKeepsOrder(s, e.index);
    } else if e.Free? {
      FreeKeepsOrderly(s);
    } else {
      OthersKeepOrderly(s, e);
    }
  }

  predicate Sound(s: Session) {
    Counting(s) && Orderly(s)
  }

  lemma StepIsSound(s: Session, e: Event)
    requires Sound(s)
    ensures Sound(Step(s, e))
  {
    StepKeepsCounting(s, e);
    StepKeepsOrderly(s, e);
  }

  lemma BegunIsSound(s: Session, k: Kind)
    requires Sound(s)
    ensures Sound(Begun(s, k))
  {
    StepIsSound(s, Begin(k));
  }

  lemma RepliedIsSound(s: Session, i: nat)
    requires Sound(s)
    ensures Sound(Replied(s, i))
  {
    StepIsSound(s, Reply(i));
  }

  lemma SearchingIsSound(s: Session)
    requires Sound(s)
    ensures Sound(Searching(s))
  {
    StepIsSound(s, Search);
  }

  lemma SearchedIsSound(s: Session, i: nat)
    requires Sound(s)
    ensures Sound(Searched(s, i))
  {
    StepIsSound(s, SearchReply(i));
  }

  lemma ConnectingIsSound(s: Session)
    requires Sound(s)
    ensures Sound(Connecting(s))
  {
    StepIsSound(s, Connect);
  }

  lemma ConnectedIsSound(s: Session, ok: bool)
    requires Sound(s)
    ensures Sound(Connected(s, ok))
  {
    StepIsSound(s, Connection(ok));
  }

  lemma FreedIsSound(s: Session)
    requires Sound(s)
    ensures Sound(Freed(s))
  {
    StepIsSound(s, Free);
  }

  lemma {:induction false} RunIsSound(events: seq<Event>)
    ensures Sound(Run(events))
  {
    if events != [] {
      var before := events[..|events| - 1];
      RunIsSound(before);
      StepIsSound(Run(before), events[|events| - 1]);
    }
  }

  // ----- Main results

  /** At most one outstanding request is current, over all three kinds together, and the
      cancellables say exactly which. */
  lemma ProtectedOperations(events: seq<Event>)
    ensures
      var s := Run(events);
      && (forall i, j | 0 <= i < |s.calls| && 0 <= j < |s.calls|
                        && Current(s, s.calls[i]) && Current(s, s.calls[j]) :: i == j)
      && (forall k: Kind :: s.At(k).cancellable <==>
            exists n | 0 <= n < |s.calls| :: s.calls[n].kind == k && Current(s, s.calls[n]))
  {
    RunIsSound(events);
    var s := Run(events);
    forall k: Kind
      ensures s.At(k).cancellable <==>
        exists n | 0 <= n < |s.calls| :: s.calls[n].kind == k && Current(s, s.calls[n])
    {
      assert s.At(k).cancellable <==> InFlight(s, k);
      if n: nat :| n < |s.calls| && s.calls[n].kind == k && Current(s, s.calls[n]) {
        assert s.calls[n] == Request(k, s.At(k).generation);
      }
    }
    forall i, j | 0 <= i < |s.calls| && 0 <= j < |s.calls|
                  && Current(s, s.calls[i]) && Current(s, s.calls[j])
      ensures i == j
    {
      assert InFlight(s, s.calls[i].kind) && InFlight(s, s.calls[j].kind);
    }
  }

  // ----- Superseded calls

  /** Everything outstanding on the bus is of one kind. */
  predicate OneKind(s: Session) {
    forall i, j | 0 <= i < |s.calls| && 0 <= j < |s.calls| :: s.calls[i].kind == s.calls[j].kind
  }

  /** A request is about to be made while a call of another kind is still outstanding. Only
      superseded calls can be: the guard tests the cancellables, and those have none. */
  predicate Overlaps(s: Session, e: Event) {
    && e.Begin? && s.panel && s.attached && s.service.Some? && !Blocked(s, e.kind)
    && exists i | 0 <= i < |s.calls| :: s.calls[i].kind != e.kind
  }

  lemma OverlapsOnlyStale(s: Session, e: Event, i: nat)
    requires Sound(s) && Overlaps(s, e) && i < |s.calls| && s.calls[i].kind != e.kind
    ensures !Current(s, s.calls[i])
  {
    assert !s.At(s.calls[i].kind).cancellable;
    assert s.calls[i] in s.calls;
  }

  lemma StepOverlaps(s: Session, e: Event)
    requires Counting(s) && OneKind(s)
    ensures OneKind(Step(s, e)) <==> !Overlaps(s, e)
  {
    var s' := Step(s, e);
    if e.Begin? && s' != s {
      var n := |s.calls|;
      assert s'.calls[n].kind == e.kind;
      if i :| 0 <= i < n && s.calls[i].kind != e.kind {
        assert s'.calls[i] == s.calls[i];
      }
    } else if e.Reply? {
    } else {
      assert s'.calls == s.calls;
    }
  }

  predicate NoOverlaps(events: seq<Event>) {
    events != [] ==>
      && NoOverlaps(events[..|events| - 1])
      && !Overlaps(Run(events[..|events| - 1]), events[|events| - 1])
  }

  predicate AlwaysOneKind(events: seq<Event>) {
    && OneKind(Run(events))
    && (events != [] ==> AlwaysOneKind(events[..|events| - 1]))
  }

  /** For every run: all outstanding calls are of one kind throughout exactly when no request
      was made over a superseded call of another kind. */
  lemma {:induction false} OneKindExactly(events: seq<Event>)
    ensures AlwaysOneKind(events) <==> NoOverlaps(events)
  {
    if events != [] {
      var before := events[..|events| - 1];
      OneKindExactly(before);
      RunIsSound(before);
      if OneKind(Run(before)) {
        StepOverlaps(Run(before), events[|events| - 1]);
      }
    }
  }

  lemma RunOneMore(events: seq<Event>, e: Event)
    ensures Run(events + [e]) == Step(Run(events), e)
  {
    assert (events + [e])[..|events|] == events;
  }

  /** A zone request superseded by another stays on the bus when that one has been answered,
      and a manual time is sent beside it. */
  lemma ManualBesideTimezone() returns (events: seq<Event>)
    ensures Run(events).calls == [Request(Timezone, 1), Request(Manual, 1)] && Run(events).panel
    ensures !Current(Run(events), Request(Timezone, 1)) && Current(Run(events), Request(Manual, 1))
  {
    RunOneMore([], Connect);
    events := [] + [Connect];
    RunOneMore(events, Connection(true));
    events := events + [Connection(true)];
    assert Run(events).attached && Run(events).calls == [];
    RunOneMore(events, Begin(Timezone));
    events := events + [Begin(Timezone)];
    RunOneMore(events, Begin(Timezone));
    events := events + [Begin(Timezone)];
    assert Run(events).calls == [Request(Timezone, 1), Request(Timezone, 2)];
    RunOneMore(events, Reply(1));
    events := events + [Reply(1)];
    assert Run(events).calls == [Request(Timezone, 1)];
    RunOneMore(events, Begin(Manual));
    events := events + [Begin(Manual)];
  }

  lemma RunCounts(events: seq<Event>)
    ensures Counting(Run(events))
  {
    RunIsSound(events);
  }

  /** A superseded or orphaned reply changes nothing but its own references. */
  lemma StaleReplyIsInert(events: seq<Event>, i: nat)
    requires i < |Run(events).calls| && !Current(Run(events), Run(events).calls[i])
    ensures
      var s := Run(events);
      var lifetime, service := Replied(s, i).lifetime, Replied(s, i).service;
      && Replied(s, i) == s.(calls := Without(s.calls, i), lifetime := lifetime, service := service)
      && lifetime.refs == s.lifetime.refs - 1
      && s.service.Some? && service.Some? && service.value.refs == s.service.value.refs - 1
  {
    RunCounts(events);
  }

  /** Each object is freed exactly once, when its last owner lets go, and never used again. */
  lemma LifetimeSafety(events: seq<Event>)
    ensures
      var s := Run(events);
      && s.lifetime.refs == Count(s.panel) + |s.calls| + |s.searches| + s.connecting
      && (s.lifetime.frees == 1 <==> s.lifetime.refs == 0) && s.lifetime.frees <= 1
      && (s.service.Some? ==>
            && s.service.value.refs == Count(s.attached) + |s.calls|
            && (s.service.value.frees == 1 <==> s.service.value.refs == 0)
            && s.service.value.frees <= 1 && !s.service.value.fault)
      && !s.lifetime.fault && !s.fault
  {
    RunCounts(events);
  }

  function RunFrom(s: Session, events: seq<Event>): Session {
    if events == [] then s else Step(RunFrom(s, events[..|events| - 1]), events[|events| - 1])
  }

  lemma InertStep(s: Session, e: Event)
    requires !s.panel && !s.pointer
    ensures !Step(s, e).panel && !Step(s, e).pointer && Step(s, e).applied == s.applied
  {
  }

  /** Once the panel is freed it stays freed, and no completion ever acts on it. */
  lemma {:induction false} NothingActsAfterFree(events: seq<Event>, more: seq<Event>)
    requires !Run(events).panel
    ensures
      var s := RunFrom(Run(events), more);
      !s.panel && !s.pointer && s.applied == Run(events).applied
  {
    if more == [] {
      RunIsSound(events);
    } else {
      NothingActsAfterFree(events, more[..|more| - 1]);
      InertStep(RunFrom(Run(events), more[..|more| - 1]), more[|more| - 1]);
    }
  }

  /** From every point some completion of the outstanding work frees everything once. */
  lemma {:induction false} EverythingCanBeFreed(s: Session) returns (rest: seq<Event>)
    requires Counting(s)
    ensures Counting(RunFrom(s, rest))
    ensures RunFrom(s, rest).lifetime.frees == 1
    ensures RunFrom(s, rest).service.Some? ==> RunFrom(s, rest).service.value.frees == 1
    decreases Count(s.panel) + |s.calls| + |s.searches| + s.connecting
  {
    if s.lifetime.refs == 0 {
      return [];
    }
    var e :=
      if s.panel then Free else if s.calls != [] then Reply(0)
      else if s.searches != [] then SearchReply(0) else Connection(true);
    StepKeepsCounting(s, e);
    var later := EverythingCanBeFreed(Step(s, e));
    RunFromLater(s, e, later);
    rest := [e] + later;
  }

  lemma {:induction false} RunFromLater(s: Session, e: Event, later: seq<Event>)
    ensures RunFrom(s, [e] + later) == RunFrom(Step(s, e), later)
  {
    var all := [e] + later;
    if later == [] {
      assert all[..0] == [];
      assert RunFrom(s, all[..0]) == s;
    } else {
      assert all[..|all| - 1] == [e] + later[..|later| - 1];
      RunFromLater(s, e, later[..|later| - 1]);
    }
  }
}
