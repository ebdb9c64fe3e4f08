/// The sessions of the devices attached to one relay, in any interleaving: no reconnect race evicts
/// the newer tunnel or leaves an older one that nobody was told to close.
module Sessions {
  import opened Protocol
  import opened RoutingTable
  import opened RegistryRuns

  /// One tunnel session, known by the serial its registration returned.
  datatype Session = Session(deviceId: Id, handle: Handle, ended: bool)

  /// `handedBack` lists the tunnels registrations returned as displaced, `last` the serial each
  /// device registered most recently.
  datatype World = World(sys: System, sessions: map<nat, Session>, handedBack: seq<Handle>, last: map<Id, nat>)

  datatype Step =
    | Begin(presence: Presence, serial: nat, now: int)
    | End(serial: nat, order: seq<Id>)
    | Other(event: Event)

  const START := World(INITIAL, map[], [], map[])

  function EventOf(world: World, step: Step): Event {
    match step
    case Begin(presence, serial, now) => Connect(presence, serial, now)
    case End(serial, order) =>
      Disconnect(if serial in world.sessions then world.sessions[serial].deviceId else "", serial, order)
    case Other(event) => event
  }

  /// Every session registers one tunnel of its own and ends once.
  ghost predicate CanStep(relay: Id, world: World, step: Step) {
    && Enabled(relay, world.sys, EventOf(world, step))
    && match step
       case Begin(presence, _, _) =>
         forall s :: s in world.sessions ==> world.sessions[s].handle != presence.handle
       case End(serial, _) => serial in world.sessions && !world.sessions[serial].ended
       case Other(event) => event.Draw? || event.Announce? || event.Withdraw?
  }

  function StepWorld(relay: Id, world: World, step: Step): World {
    var sys := Next(relay, world.sys, EventOf(world, step));
    match step
    case Begin(presence, serial, _) =>
      var displaced := Displaced(world.sys.state, presence.deviceId);
      World(
        sys,
        world.sessions[serial := Session(presence.deviceId, presence.handle, false)],
        if displaced.Some? then world.handedBack + [displaced.value] else world.handedBack,
        world.last[presence.deviceId := serial])
    case End(serial, _) =>
      if serial in world.sessions
      then world.(sys := sys, sessions := world.sessions[serial := world.sessions[serial].(ended := true)])
      else world
    case Other(_) => world.(sys := sys)
  }

  function RunWorld(relay: Id, steps: seq<Step>): World {
    if steps == [] then START
    else StepWorld(relay, RunWorld(relay, steps[..|steps| - 1]), steps[|steps| - 1])
  }

  ghost predicate ValidSteps(relay: Id, steps: seq<Step>) {
    steps != [] ==>
      && ValidSteps(relay, steps[..|steps| - 1])
      && CanStep(relay, RunWorld(relay, steps[..|steps| - 1]), steps[|steps| - 1])
  }

  ghost predicate Registered(world: World, serial: nat)
    requires serial in world.sessions
  {
    var session := world.sessions[serial];
    && IsRegistered(world.sys.state, session.deviceId, serial)
    && world.sys.state.entries[session.deviceId].device.route == Direct(session.handle)
  }

  /// An open session is the registered one, or its tunnel was handed back to be closed; never both.
  ghost predicate NoOrphans(world: World) {
    forall s :: s in world.sessions && !world.sessions[s].ended ==>
      (Registered(world, s) <==> world.sessions[s].handle !in world.handedBack)
  }

  /// The device is directly online exactly while the session it registered last is open.
  ghost predicate LastDecides(world: World) {
    forall d :: IsDirect(world.sys.state, d) <==>
                d in world.last && world.last[d] in world.sessions && !world.sessions[world.last[d]].ended
  }

  ghost predicate ReconnectSafe(world: World) {
    && NoOrphans(world)
    && LastDecides(world)
    && NoDuplicates(world.handedBack)
  }

  ghost predicate SerialsUsed(world: World) {
    forall s :: s in world.sessions ==> s < world.sys.counter && s !in world.sys.held
  }

  ghost predicate HandlesDistinct(world: World) {
    forall s, t :: s in world.sessions && t in world.sessions && s != t ==>
                     world.sessions[s].handle != world.sessions[t].handle
  }

  ghost predicate HandedBackKnown(world: World) {
    forall h :: h in world.handedBack ==> exists s :: s in world.sessions && world.sessions[s].handle == h
  }

  ghost predicate LastKnown(world: World) {
    forall d :: d in world.last ==> world.last[d] in world.sessions && world.sessions[world.last[d]].deviceId == d
  }

  /// A direct tunnel belongs to the last session of its device, which is open and was not handed back.
  ghost predicate IsBacked(world: World, d: Id)
    requires IsDirect(world.sys.state, d)
  {
    var serial := world.sys.state.entries[d].origin.serial;
    && d in world.last && world.last[d] == serial
    && serial in world.sessions
    && Registered(world, serial)
    && !world.sessions[serial].ended
    && world.sessions[serial].handle !in world.handedBack
  }

  ghost predicate TunnelsBacked(world: World) {
    forall d :: IsDirect(world.sys.state, d) ==> IsBacked(world, d)
  }

  ghost predicate Bookkeeping(world: World) {
    && SerialsUsed(world)
    && HandlesDistinct(world)
    && HandedBackKnown(world)
    && LastKnown(world)
    && TunnelsBacked(world)
  }

  ghost predicate SessionInvariant(relay: Id, world: World) {
    TableInvariant(relay, world.sys) && Bookkeeping(world) && ReconnectSafe(world)
  }

  /// Only a registration or a matching disconnect changes which tunnels are direct.
  lemma OtherStepsKeepTunnels(relay: Id, sys: System, event: Event)
    requires TableInvariant(relay, sys) && Enabled(relay, sys, event)
    requires event.Draw? || event.Announce? || event.Withdraw?
    ensures var after := Next(relay, sys, event).state;
            forall d :: && (IsDirect(after, d) <==> IsDirect(sys.state, d))
                        && (IsDirect(after, d) ==> after.entries[d] == sys.state.entries[d])
  {}

  lemma BeginEffect(relay: Id, world: World, step: Step)
    requires step.Begin? && Bookkeeping(world) && CanStep(relay, world, step)
    ensures step.serial !in world.sessions
    ensures var after, id := StepWorld(relay, world, step), step.presence.deviceId;
            && IsDirect(after.sys.state, id) && Registered(after, step.serial)
            && step.presence.handle !in after.handedBack
            && (forall d :: d != id ==> (IsDirect(after.sys.state, d) <==> IsDirect(world.sys.state, d)))
            && (forall s :: s in world.sessions ==>
                  (Registered(after, s) <==> Registered(world, s) && world.sessions[s].deviceId != id))
  {
    var id := step.presence.deviceId;
    if IsDirect(world.sys.state, id) {
      assert IsBacked(world, id);
    }
    FreshHandleIsNotBack(relay, world, step);
  }

  lemma FreshHandleIsNotBack(relay: Id, world: World, step: Step)
    requires step.Begin? && Bookkeeping(world) && CanStep(relay, world, step)
    ensures step.presence.handle !in StepWorld(relay, world, step).handedBack
  {
    var id := step.presence.deviceId;
    if IsDirect(world.sys.state, id) {
      assert IsBacked(world, id);
    }
  }

  lemma BeginKeepsHandedBack(relay: Id, world: World, step: Step)
    requires step.Begin? && Bookkeeping(world) && step.serial !in world.sessions
    ensures HandedBackKnown(StepWorld(relay, world, step))
  {
    var after, id := StepWorld(relay, world, step), step.presence.deviceId;
    forall h | h in after.handedBack
      ensures exists s :: s in after.sessions && after.sessions[s].handle == h
    {
      if h in world.handedBack {
        var s :| s in world.sessions && world.sessions[s].handle == h;
        assert s in after.sessions && after.sessions[s].handle == h;
      } else {
        assert IsDirect(world.sys.state, id) && IsBacked(world, id);
        var s := world.sys.state.entries[id].origin.serial;
        assert s in after.sessions && after.sessions[s].handle == h;
      }
    }
  }

  lemma BeginKeepsBacked(relay: Id, world: World, step: Step)
    requires step.Begin? && Bookkeeping(world) && CanStep(relay, world, step)
    ensures TunnelsBacked(StepWorld(relay, world, step))
  {
    BeginEffect(relay, world, step);
    var after, id := StepWorld(relay, world, step), step.presence.deviceId;
    forall d | IsDirect(after.sys.state, d)
      ensures IsBacked(after, d)
    {
      if d != id {
        assert IsDirect(world.sys.state, d) && IsBacked(world, d);
        if IsDirect(world.sys.state, id) {
          assert IsBacked(world, id);
        }
      }
    }
  }

  lemma BeginKeepsBookkeeping(relay: Id, world: World, step: Step)
    requires step.Begin? && Bookkeeping(world) && CanStep(relay, world, step)
    requires forall n :: n in world.sys.held ==> n < world.sys.counter
    ensures Bookkeeping(StepWorld(relay, world, step))
  {
    BeginKeepsHandedBack(relay, world, step);
    BeginKeepsBacked(relay, world, step);
  }

  lemma BeginKeepsNoOrphans(relay: Id, world: World, step: Step)
    requires step.Begin? && Bookkeeping(world) && NoOrphans(world) && CanStep(relay, world, step)
    ensures NoOrphans(StepWorld(relay, world, step))
  {
    BeginEffect(relay, world, step);
    var after, id := StepWorld(relay, world, step), step.presence.deviceId;
    forall s | s in world.sessions && !world.sessions[s].ended
      ensures Registered(after, s) <==> world.sessions[s].handle !in after.handedBack
    {
      assert IsDirect(world.sys.state, id) ==> IsBacked(world, id);
    }
  }

  lemma BeginKeepsSafety(relay: Id, world: World, step: Step)
    requires step.Begin? && Bookkeeping(world) && ReconnectSafe(world) && CanStep(relay, world, step)
    ensures ReconnectSafe(StepWorld(relay, world, step))
  {
    BeginEffect(relay, world, step);
    BeginKeepsNoOrphans(relay, world, step);
    var id := step.presence.deviceId;
    assert IsDirect(world.sys.state, id) ==> IsBacked(world, id);
  }

  lemma EndEffect(relay: Id, world: World, step: Step)
    requires step.End? && Bookkeeping(world) && CanStep(relay, world, step)
    ensures var after, id := StepWorld(relay, world, step), world.sessions[step.serial].deviceId;
            && (forall d :: IsDirect(after.sys.state, d) <==>
                            IsDirect(world.sys.state, d) && world.sys.state.entries[d].origin.serial != step.serial)
            && (forall d :: IsDirect(after.sys.state, d) ==> after.sys.state.entries[d] == world.sys.state.entries[d])
            && (forall s :: s in world.sessions ==>
                  (Registered(after, s) <==> Registered(world, s) && s != step.serial))
  {
    var id := world.sessions[step.serial].deviceId;
    forall d | IsDirect(world.sys.state, d) && world.sys.state.entries[d].origin.serial == step.serial
      ensures d == id && IsRegistered(world.sys.state, id, step.serial)
    {}
  }

  lemma EndKeepsBookkeeping(relay: Id, world: World, step: Step)
    requires step.End? && Bookkeeping(world) && CanStep(relay, world, step)
    ensures Bookkeeping(StepWorld(relay, world, step))
  {
    EndEffect(relay, world, step);
    var after := StepWorld(relay, world, step);
    forall h | h in after.handedBack
      ensures exists s :: s in after.sessions && after.sessions[s].handle == h
    {
      var s :| s in world.sessions && world.sessions[s].handle == h;
      assert s in after.sessions && after.sessions[s].handle == h;
    }
    forall d | IsDirect(after.sys.state, d)
      ensures IsBacked(after, d)
    {
      assert IsDirect(world.sys.state, d) && IsBacked(world, d);
    }
  }

  lemma EndKeepsSafety(relay: Id, world: World, step: Step)
    requires step.End? && Bookkeeping(world) && ReconnectSafe(world) && CanStep(relay, world, step)
    ensures ReconnectSafe(StepWorld(relay, world, step))
  {
    EndEffect(relay, world, step);
    var after := StepWorld(relay, world, step);
    forall d
      ensures IsDirect(after.sys.state, d) <==>
              d in after.last && after.last[d] in after.sessions && !after.sessions[after.last[d]].ended
    {
      if IsDirect(world.sys.state, d) {
        assert IsBacked(world, d);
      }
    }
  }

  lemma OtherKeepsInvariant(relay: Id, world: World, step: Step)
    requires step.Other? && SessionInvariant(relay, world) && CanStep(relay, world, step)
    ensures Bookkeeping(StepWorld(relay, world, step)) && ReconnectSafe(StepWorld(relay, world, step))
  {
    var after := StepWorld(relay, world, step);
    OtherStepsKeepTunnels(relay, world.sys, step.event);
    forall s | s in world.sessions
      ensures Registered(after, s) <==> Registered(world, s)
    {
      assert IsDirect(after.sys.state, world.sessions[s].deviceId)
        <==> IsDirect(world.sys.state, world.sessions[s].deviceId);
    }
  }

  /// In every interleaving of sessions, ends and announcements: no tunnel is orphaned, none is
  /// handed back twice, and the last registration alone decides whether a device is online.
  lemma {:induction false} ReconnectsAreSafeInEveryRun(relay: Id, steps: seq<Step>)
    requires ValidSteps(relay, steps)
    ensures SessionInvariant(relay, RunWorld(relay, steps))
  {
    if steps != [] {
      var front := steps[..|steps| - 1];
      var world, step := RunWorld(relay, front), steps[|steps| - 1];
      ReconnectsAreSafeInEveryRun(relay, front);
      StepKeepsTable(relay, world.sys, EventOf(world, step));
      match step
      case Begin(_, _, _) =>
        BeginKeepsBookkeeping(relay, world, step);
        BeginKeepsSafety(relay, world, step);
      case End(_, _) =>
        EndKeepsBookkeeping(relay, world, step);
        EndKeepsSafety(relay, world, step);
      case Other(_) => OtherKeepsInvariant(relay, world, step);
    }
  }

  /// The late cleanup of a session that was displaced leaves the table and the log as they were.
  lemma StaleEndChangesNothing(relay: Id, steps: seq<Step>, serial: nat, order: seq<Id>)
    requires ValidSteps(relay, steps) && CanStep(relay, RunWorld(relay, steps), End(serial, order))
    requires RunWorld(relay, steps).sessions[serial].handle in RunWorld(relay, steps).handedBack
    ensures StepWorld(relay, RunWorld(relay, steps), End(serial, order)).sys == RunWorld(relay, steps).sys
  {
    ReconnectsAreSafeInEveryRun(relay, steps);
    var world := RunWorld(relay, steps);
    var id := world.sessions[serial].deviceId;
    if IsRegistered(world.sys.state, id, serial) {
      assert IsDirect(world.sys.state, id);
      assert false;
    }
  }
}
