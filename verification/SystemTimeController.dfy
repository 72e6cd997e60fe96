/** The panel's controller, the lifetime token and the service as objects that their methods
    update; each public method performs one event of the session machine. */
module SystemTimeController {
  import opened Optional
  import opened SystemTime
  import opened SessionProgress

  /** Survives the panel; completions ask it whether the panel is still there. */
  class Lifetime {
    var references: int
    var panel: bool
    ghost var frees: nat
    ghost var fault: bool

    ghost function Value(): Counted
      reads this
    {
      Counted(references, frees, fault)
    }

    constructor ()
      ensures Value() == NEW && panel
    {
      references, panel, frees, fault := 1, true, 0, false;
    }

    method Ref()
      modifies this
      ensures Value() == old(Value()).Ref() && panel == old(panel)
    {
      fault := fault || frees > 0;
      references := references + 1;
    }

    method Invalidate()
      modifies this
      ensures Value() == old(Value()).Touched() && !panel
    {
      fault := fault || frees > 0;
      panel := false;
    }

    method GetPanel() returns (present: bool)
      modifies `fault
      ensures Value() == old(Value()).Touched() && present == panel
    {
      fault := fault || frees > 0;
      present := panel;
    }

    method Unref()
      modifies this
      ensures Value() == old(Value()).Unref() && panel == old(panel)
    {
      fault := fault || frees > 0;
      references := references - 1;
      if references == 0 {
        frees := frees + 1;
      }
    }
  }

  class Service {
    var references: int
    var changed: bool  // a callback into the panel is installed
    ghost var frees: nat
    ghost var fault: bool

    ghost function Value(): Counted
      reads this
    {
      Counted(references, frees, fault)
    }

    constructor ()
      ensures Value() == NEW && !changed
    {
      references, changed, frees, fault := 1, false, 0, false;
    }

    method BeginCall()
      modifies this
      ensures Value() == old(Value()).Ref() && changed == old(changed)
    {
      fault := fault || frees > 0;
      references := references + 1;
    }

    method Unref()
      modifies this
      ensures Value() == old(Value()).Unref() && changed == old(changed)
    {
      fault := fault || frees > 0;
      references := references - 1;
      if references == 0 {
        frees := frees + 1;
      }
    }

    method Free()
      modifies this
      ensures Value() == old(Value()).Unref() && !changed
    {
      changed := false;
      Unref();
    }
  }

  class Controller {
    const lifetime: Lifetime
    var service: Service?
    var timezone: Slot
    var ntp: Slot
    var manual: Slot
    var connection: bool
    var searchGeneration: nat
    /** The panel's memory, the service ever built, and what the main loop still owes. */
    ghost var alive: bool
    ghost var built: Service?
    ghost var calls: seq<Request>
    ghost var searches: seq<nat>
    ghost var connecting: nat
    ghost var applied: seq<Request>
    ghost var fault: bool

    ghost function State(): Session
      reads this, lifetime, built
    {
      Session(alive, lifetime.Value(), lifetime.panel,
              if built == null then None else Some(built.Value()),
              service != null, built != null && built.changed,
              timezone, ntp, manual, connection, searchGeneration,
              calls, searches, connecting, applied, fault)
    }

    ghost predicate Valid()
      reads this, lifetime, built
    {
      Sound(State()) && (service != null ==> service == built)
    }

    constructor ()
      ensures Valid() && State() == Opened() && fresh(lifetime)
    {
      lifetime := new Lifetime();
      service, built := null, null;
      timezone, ntp, manual := Slot(0, false), Slot(0, false), Slot(0, false);
      connection, searchGeneration := false, 0;
      alive, calls, searches, connecting, applied, fault := true, [], [], 0, [], false;
      new;
      RunIsSound([]);
    }

    method SetSlot(k: Kind, slot: Slot)
      modifies `timezone, `ntp, `manual
      ensures timezone == if k == Timezone then slot else old(timezone)
      ensures ntp == if k == Ntp then slot else old(ntp)
      ensures manual == if k == Manual then slot else old(manual)
    {
      match k
      case Timezone => timezone := slot;
      case Ntp => ntp := slot;
      case Manual => manual := slot;
    }

    function SlotOf(k: Kind): Slot
      reads this
    {
      match k
      case Timezone => timezone
      case Ntp => ntp
      case Manual => manual
    }

    /** Refuses while another kind is unresolved; otherwise supersedes its own predecessor. */
    method BeginSystemTimeOperation(k: Kind) returns (request: Option<Request>)
      modifies `timezone, `ntp, `manual, lifetime
      ensures request.None? <==> Blocked(old(State()), k)
      ensures request.None? ==> State() == old(State())
      ensures request.Some? ==>
        var slot := Slot(old(State()).At(k).generation + 1, true);
        && request == Some(Request(k, slot.generation))
        && State() == old(State()).With(k, slot).(lifetime := old(State()).lifetime.Ref())
    {
      if (k != Timezone && timezone.cancellable) || (k != Ntp && ntp.cancellable)
         || (k != Manual && manual.cancellable) {
        return None;
      }
      var generation := SlotOf(k).generation + 1;
      SetSlot(k, Slot(generation, true));
      lifetime.Ref();
      return Some(Request(k, generation));
    }

    /** Begins the operation and hands its call to the service. */
    method Submit(k: Kind)
      requires alive && service != null && service == built
      modifies this, lifetime, service
      ensures State() == Begun(old(State()), k) && built == old(built) && service == old(service)
    {
      var request := BeginSystemTimeOperation(k);
      if request.None? {
        return;
      }
      service.BeginCall();
      calls := calls + [request.value];
    }

    /** A user asks for a protected change. */
    method RequestOperation(k: Kind)
      requires Valid() && alive
      modifies this, lifetime, service
      ensures Valid() && State() == Begun(old(State()), k)
      ensures Answers(old(State()), State(), k)
    {
      BegunIsSound(State(), k);
      RequestIsAnswered(State(), k);
      if service != null {
        Submit(k);
      }
    }

    ghost predicate IsCurrent(request: Request)
      reads this, lifetime
    {
      lifetime.panel && request.generation == SlotOf(request.kind).generation
    }

    /** Acts on the panel only for the current request of a living panel. */
    method SystemTimeOperationComplete(request: Request)
      modifies `timezone, `ntp, `manual, `applied, `fault, lifetime
      ensures
        var ended := if old(IsCurrent(request)) then Some(request.kind) else None;
        && timezone == old(timezone).Unless(ended == Some(Timezone))
        && ntp == old(ntp).Unless(ended == Some(Ntp))
        && manual == old(manual).Unless(ended == Some(Manual))
        && applied == (if ended.Some? then old(applied) + [request] else old(applied))
        && fault == (old(fault) || (ended.Some? && !alive))
      ensures lifetime.Value() == old(lifetime.Value()).Touched().Unref()
      ensures lifetime.panel == old(lifetime.panel)
    {
      var present := lifetime.GetPanel();
      if present && request.generation == SlotOf(request.kind).generation {
        fault := fault || !alive;
        SetSlot(request.kind, SlotOf(request.kind).(cancellable := false));
        applied := applied + [request];
      }
      lifetime.Unref();
    }

    /** Any outstanding call finishes; its callback runs before the service reference goes. */
    method CallFinished(call: Service, request: Request, ghost i: nat)
      requires Valid() && i < |calls| && request == calls[i] && call == built
      modifies this, lifetime, call
      ensures Valid() && State() == Replied(old(State()), i)
    {
      RepliedIsSound(State(), i);
      SystemTimeOperationComplete(request);
      call.Unref();
      calls := Without(calls, i);
    }

    method BeginLocationSearch() returns (generation: nat)
      requires Valid() && alive
      modifies this, lifetime
      ensures Valid() && State() == Searching(old(State()))
      ensures generation == searchGeneration > old(searchGeneration)
      ensures searches == old(searches) + [generation]
    {
      SearchingIsSound(State());
      searchGeneration := searchGeneration + 1;
      generation := searchGeneration;
      lifetime.Ref();
      searches := searches + [generation];
    }

    method LocationSearchComplete(generation: nat, ghost i: nat) returns (shown: bool)
      requires Valid() && i < |searches| && generation == searches[i]
      modifies this, lifetime
      ensures Valid() && State() == Searched(old(State()), i)
      ensures shown <==> old(alive) && generation == old(searchGeneration)
    {
      SearchedIsSound(State(), i);
      var present := lifetime.GetPanel();
      shown := present && generation == searchGeneration;
      fault := fault || (shown && !alive);
      lifetime.Unref();
      searches := Without(searches, i);
    }

    method Start()
      requires Valid() && alive
      modifies this, lifetime
      ensures Valid() && State() == Connecting(old(State()))
    {
      ConnectingIsSound(State());
      if connection || service != null {
        return;
      }
      connection := true;
      lifetime.Ref();
      connecting := connecting + 1;
    }

    /** Nobody waits for the service any more: it is freed at once. */
    method Orphan(offered: Service?)
      requires connecting > 0 && !lifetime.panel && service == null
      requires offered != null ==> offered.Value() == NEW && !offered.changed && built == null
      modifies `connecting, `built, lifetime, offered
      ensures State() == Connected(old(State()), offered != null)
    {
      connecting := connecting - 1;
      if offered != null {
        built := offered;
        offered.Free();
      }
      lifetime.Unref();
    }

    /** The panel takes the service over, if there is one. */
    method Adopt(offered: Service?)
      requires connecting > 0 && lifetime.panel && service == null
      requires offered != null ==> offered.Value() == NEW && !offered.changed && built == null
      modifies `connecting, `connection, `built, `service, `fault, lifetime, offered
      ensures State() == Connected(old(State()), offered != null)
      ensures service != null ==> service == built
    {
      connecting := connecting - 1;
      fault := fault || !alive;
      connection := false;
      if offered != null {
        built, service := offered, offered;
        offered.changed := true;
      }
      lifetime.Unref();
      assert offered != null ==> built.Value() == NEW && built.changed;
    }

    /** The connection attempt ends, with a new service or without one. */
    method SystemTimeServiceReady(offered: Service?)
      requires Valid() && connecting > 0
      requires offered != null ==> offered.Value() == NEW && !offered.changed
      modifies this, lifetime, offered
      ensures Valid() && State() == Connected(old(State()), offered != null)
    {
      ConnectedIsSound(State(), offered != null);
      var present := lifetime.GetPanel();
      assert State() == old(State());
      if present {
        Adopt(offered);
      } else {
        Orphan(offered);
      }
    }

    /** Cancels what is pending and gives up the service. */
    method Dispose()
      requires service != null ==> service == built
      modifies `connection, `timezone, `ntp, `manual, `service, service
      ensures service == null && !connection
      ensures timezone == old(timezone).(cancellable := false)
      ensures ntp == old(ntp).(cancellable := false)
      ensures manual == old(manual).(cancellable := false)
      ensures built != null ==>
        && built.Value() == (if old(service) != null then old(built.Value()).Unref() else old(built.Value()))
        && built.changed == (old(built.changed) && old(service) == null)
    {
      connection := false;
      timezone := timezone.(cancellable := false);
      ntp := ntp.(cancellable := false);
      manual := manual.(cancellable := false);
      if service != null {
        service.Free();
      }
      service := null;
    }

    /** Makes every outstanding completion inert, then lets go of everything. */
    method PanelFree()
      requires Valid() && alive
      modifies this, lifetime, service
      ensures Valid() && State() == Freed(old(State()))
    {
      FreedIsSound(State());
      lifetime.Invalidate();
      Dispose();
      lifetime.Unref();
      alive := false;
    }
  }
}
