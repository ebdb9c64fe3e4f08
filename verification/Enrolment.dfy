/// One-time enrolment codes. Redeeming one is several database calls; other redemptions,
/// cancellations, revocations and failures may come between any two of them.
module Enrolment {
  import opened Protocol

  datatype Status = Pending | Used | Expired | Cancelled

  datatype EnrollmentRecord = EnrollmentRecord(
    kind: DeviceKind,
    ownerUserId: Option<Id>,
    expiresAt: int,
    usedAt: Option<int>,
    usedByDeviceId: Option<Id>,
    cancelledAt: Option<int>)
  {
    /// Used comes before cancelled and both before expired, so what happened to a code outlives its
    /// deadline.
    function StatusAt(now: int): Status {
      if usedAt.Some? then Used
      else if cancelledAt.Some? then Cancelled
      else if now >= expiresAt then Expired
      else Pending
    }

    predicate IsRedeemable(now: int) {
      StatusAt(now) == Pending
    }

    /// Neither used nor cancelled: the guard of both updates.
    predicate IsOpen() {
      usedAt.None? && cancelledAt.None?
    }
  }

  datatype DeviceRow = DeviceRow(kind: DeviceKind, name: string, ownerUserId: Option<Id>, revokedAt: Option<int>)

  datatype Store = Store(codes: map<Id, EnrollmentRecord>, devices: map<Id, DeviceRow>)

  // ---------- the single database calls ----------

  function WithCode(store: Store, code: Id, kind: DeviceKind, owner: Option<Id>, expiresAt: int): Store {
    store.(codes := store.codes[code := EnrollmentRecord(kind, owner, expiresAt, None, None, None)])
  }

  function WithDevice(store: Store, device: Id, kind: DeviceKind, owner: Option<Id>, name: string): Store {
    store.(devices := store.devices[device := DeviceRow(kind, name, owner, None)])
  }

  predicate CanSettle(store: Store, code: Id) {
    code in store.codes && store.codes[code].IsOpen()
  }

  function Burned(store: Store, code: Id, device: Id, now: int): Store {
    if CanSettle(store, code)
    then store.(codes := store.codes[code := store.codes[code].(usedAt := Some(now), usedByDeviceId := Some(device))])
    else store
  }

  function CancelledAt(store: Store, code: Id, now: int): Store {
    if CanSettle(store, code)
    then store.(codes := store.codes[code := store.codes[code].(cancelledAt := Some(now))])
    else store
  }

  function RevokedAt(store: Store, device: Id, now: int): Store {
    if device in store.devices && store.devices[device].revokedAt.None?
    then store.(devices := store.devices[device := store.devices[device].(revokedAt := Some(now))])
    else store
  }

  /// The devices of an account that is deleted stay, without an owner.
  function Disowned(store: Store, owner: Id): Store {
    store.(devices := map d | d in store.devices ::
             if store.devices[d].ownerUserId == Some(owner) then store.devices[d].(ownerUserId := None)
             else store.devices[d])
  }

  // ---------- redemptions in any interleaving ----------

  /// How far one redemption has come, with the clock readings of its lookup and its burn. Only `Won`
  /// returns a credential.
  datatype Phase =
    | Found(code: Id, lookedUpAt: int)
    | Issued(code: Id, device: Id, lookedUpAt: int)
    | Losing(code: Id, device: Id, lookedUpAt: int)
    | Won(code: Id, device: Id, lookedUpAt: int, burnedAt: int)
    | Refused(revoked: Option<Id>)
    | Aborted(left: Option<Id>)

  datatype World = World(store: Store, redemptions: map<nat, Phase>)

  datatype Step =
    | LookUp(r: nat, code: Id, now: int)
    | Issue(r: nat, device: Id, name: string)
    | Burn(r: nat, now: int)
    | RevokeLoser(r: nat, now: int)
    | Abort(r: nat)
    | CreateCode(code: Id, kind: DeviceKind, owner: Option<Id>, expiresAt: int)
    | Cancel(code: Id, now: int)
    | AddDevice(device: Id, kind: DeviceKind, owner: Option<Id>, name: string)
    | Revoke(device: Id, now: int)
    | Disown(account: Id)

  const EMPTY := World(Store(map[], map[]), map[])

  function DeviceOf(phase: Phase): Option<Id> {
    match phase
    case Found(_, _) => None
    case Issued(_, device, _) => Some(device)
    case Losing(_, device, _) => Some(device)
    case Won(_, device, _, _) => Some(device)
    case Refused(revoked) => revoked
    case Aborted(left) => left
  }

  /// Codes and devices have primary keys, so neither is ever inserted twice.
  predicate CanStep(world: World, step: Step) {
    match step
    case LookUp(r, _, _) => r !in world.redemptions
    case Issue(r, device, _) =>
      && r in world.redemptions && world.redemptions[r].Found?
      && world.redemptions[r].code in world.store.codes
      && device !in world.store.devices
    case Burn(r, _) => r in world.redemptions && world.redemptions[r].Issued?
    case RevokeLoser(r, _) => r in world.redemptions && world.redemptions[r].Losing?
    case Abort(r) =>
      && r in world.redemptions
      && (world.redemptions[r].Found? || world.redemptions[r].Issued? || world.redemptions[r].Losing?)
    case CreateCode(code, _, _, _) => code !in world.store.codes
    case Cancel(_, _) => true
    case AddDevice(device, _, _, _) => device !in world.store.devices
    case Revoke(_, _) => true
    case Disown(_) => true
  }

  function StepWorld(world: World, step: Step): World
    requires CanStep(world, step)
  {
    var store, redemptions := world.store, world.redemptions;
    match step
    case LookUp(r, code, now) =>
      World(store, redemptions[r := if code in store.codes && store.codes[code].IsRedeemable(now)
                                    then Found(code, now) else Refused(None)])
    case Issue(r, device, name) =>
      var record := store.codes[redemptions[r].code];
      World(WithDevice(store, device, record.kind, record.ownerUserId, name),
            redemptions[r := Issued(redemptions[r].code, device, redemptions[r].lookedUpAt)])
    case Burn(r, now) =>
      var code, device, lookedUpAt := redemptions[r].code, redemptions[r].device, redemptions[r].lookedUpAt;
      World(Burned(store, code, device, now),
            redemptions[r := if CanSettle(store, code) then Won(code, device, lookedUpAt, now)
                             else Losing(code, device, lookedUpAt)])
    case RevokeLoser(r, now) =>
      World(RevokedAt(store, redemptions[r].device, now), redemptions[r := Refused(Some(redemptions[r].device))])
    case Abort(r) => World(store, redemptions[r := Aborted(DeviceOf(redemptions[r]))])
    case CreateCode(code, kind, owner, expiresAt) => World(WithCode(store, code, kind, owner, expiresAt), redemptions)
    case Cancel(code, now) => World(CancelledAt(store, code, now), redemptions)
    case AddDevice(device, kind, owner, name) => World(WithDevice(store, device, kind, owner, name), redemptions)
    case Revoke(device, now) => World(RevokedAt(store, device, now), redemptions)
    case Disown(account) => World(Disowned(store, account), redemptions)
  }

  /// The world a list of steps leads to, if every one of them could happen when its turn came.
  function RunWorld(steps: seq<Step>): Option<World> {
    if steps == [] then Some(EMPTY)
    else
      var before := RunWorld(steps[..|steps| - 1]);
      if before.Some? && CanStep(before.value, steps[|steps| - 1])
      then Some(StepWorld(before.value, steps[|steps| - 1]))
      else None
  }

  ghost predicate WonWith(phase: Phase, code: Id, record: EnrollmentRecord) {
    && phase.Won? && phase.code == code
    && record.usedAt == Some(phase.burnedAt) && record.usedByDeviceId == Some(phase.device)
  }

  /// The device row was made for the code: of its kind, and for its owner unless that account is gone.
  ghost predicate MadeFor(row: DeviceRow, record: EnrollmentRecord) {
    && row.kind == record.kind
    && (row.ownerUserId == record.ownerUserId || row.ownerUserId == None)
  }

  ghost predicate CodeOk(world: World, code: Id)
    requires code in world.store.codes
  {
    var record := world.store.codes[code];
    && !(record.usedAt.Some? && record.cancelledAt.Some?)
    && (record.usedAt.Some? <==> record.usedByDeviceId.Some?)
    && (record.usedAt.Some? ==>
          exists r :: r in world.redemptions && WonWith(world.redemptions[r], code, record))
  }

  ghost predicate RedemptionOk(world: World, r: nat)
    requires r in world.redemptions
  {
    var phase := world.redemptions[r];
    && (DeviceOf(phase).Some? ==> DeviceOf(phase).value in world.store.devices)
    && (!phase.Refused? && !phase.Aborted? ==>
          phase.code in world.store.codes && phase.lookedUpAt < world.store.codes[phase.code].expiresAt)
    && (phase.Won? ==> WonWith(phase, phase.code, world.store.codes[phase.code]))
    && (phase.Issued? || phase.Losing? || phase.Won? ==>
          MadeFor(world.store.devices[phase.device], world.store.codes[phase.code]))
    && (phase.Refused? && phase.revoked.Some? ==> world.store.devices[phase.revoked.value].revokedAt.Some?)
  }

  ghost predicate EnrolmentInvariant(world: World) {
    && (forall code {:trigger CodeOk(world, code)} :: code in world.store.codes ==> CodeOk(world, code))
    && (forall r {:trigger RedemptionOk(world, r)} :: r in world.redemptions ==> RedemptionOk(world, r))
    && DevicesDistinct(world)
  }

  /// No two redemptions work on the same device row.
  ghost predicate DevicesDistinct(world: World) {
    && (forall r, s :: r in world.redemptions && s in world.redemptions && r != s
                       && DeviceOf(world.redemptions[r]).Some? ==>
                         DeviceOf(world.redemptions[r]) != DeviceOf(world.redemptions[s]))
  }

  lemma CodeStaysOk(world: World, step: Step, code: Id)
    requires CanStep(world, step) && code in StepWorld(world, step).store.codes
    requires code in world.store.codes ==> CodeOk(world, code)
    ensures CodeOk(StepWorld(world, step), code)
  {
    var after := StepWorld(world, step);
    var record := after.store.codes[code];
    if code in world.store.codes && world.store.codes[code].usedAt.Some? {
      var r :| r in world.redemptions && WonWith(world.redemptions[r], code, world.store.codes[code]);
      assert after.redemptions[r] == world.redemptions[r];
    } else if step.Burn? && record.usedAt.Some? {
      assert WonWith(after.redemptions[step.r], code, record);
    }
  }

  lemma RedemptionStaysOk(world: World, step: Step, r: nat)
    requires CanStep(world, step) && r in StepWorld(world, step).redemptions
    requires r in world.redemptions ==> RedemptionOk(world, r)
    requires r in world.redemptions && world.redemptions[r].Won? ==> CodeOk(world, world.redemptions[r].code)
    ensures RedemptionOk(StepWorld(world, step), r)
  {
    if step.Burn? {
      BurnKeepsRedemption(world, step, r);
    }
  }

  lemma BurnKeepsRedemption(world: World, step: Step, r: nat)
    requires step.Burn? && CanStep(world, step) && r in world.redemptions && RedemptionOk(world, r)
    requires world.redemptions[r].Won? ==> CodeOk(world, world.redemptions[r].code)
    ensures RedemptionOk(StepWorld(world, step), r)
  {}

  lemma StepKeepsDevicesDistinct(world: World, step: Step)
    requires EnrolmentInvariant(world) && CanStep(world, step)
    ensures DevicesDistinct(StepWorld(world, step))
  {
    if step.Issue? {
      forall r | r in world.redemptions
        ensures DeviceOf(world.redemptions[r]) != Some(step.device)
      {
        assert RedemptionOk(world, r);
      }
    }
  }

  lemma StepKeepsEnrolment(world: World, step: Step)
    requires EnrolmentInvariant(world) && CanStep(world, step)
    ensures EnrolmentInvariant(StepWorld(world, step))
  {
    var after := StepWorld(world, step);
    forall code | code in after.store.codes
      ensures CodeOk(after, code)
    {
      assert code in world.store.codes ==> CodeOk(world, code);
      CodeStaysOk(world, step, code);
    }
    forall r | r in after.redemptions
      ensures RedemptionOk(after, r)
    {
      if r in world.redemptions {
        assert RedemptionOk(world, r);
        assert world.redemptions[r].Won? ==> CodeOk(world, world.redemptions[r].code);
      }
      RedemptionStaysOk(world, step, r);
    }
    StepKeepsDevicesDistinct(world, step);
  }

  lemma {:induction false} EnrolmentHoldsInEveryRun(steps: seq<Step>)
    requires RunWorld(steps).Some?
    ensures EnrolmentInvariant(RunWorld(steps).value)
  {
    if steps != [] {
      EnrolmentHoldsInEveryRun(steps[..|steps| - 1]);
      StepKeepsEnrolment(RunWorld(steps[..|steps| - 1]).value, steps[|steps| - 1]);
    }
  }

  /// At most one redemption of a code ever returns a credential, and a code is used exactly when
  /// one did.
  lemma AtMostOneCredential(steps: seq<Step>, code: Id, r: nat, s: nat)
    requires RunWorld(steps).Some?
    requires r in RunWorld(steps).value.redemptions && s in RunWorld(steps).value.redemptions
    requires RunWorld(steps).value.redemptions[r].Won? && RunWorld(steps).value.redemptions[r].code == code
    requires RunWorld(steps).value.redemptions[s].Won? && RunWorld(steps).value.redemptions[s].code == code
    ensures r == s
  {
    EnrolmentHoldsInEveryRun(steps);
    var world := RunWorld(steps).value;
    assert RedemptionOk(world, r) && RedemptionOk(world, s);
  }

  lemma UsedExactlyWhenWon(steps: seq<Step>, code: Id)
    requires RunWorld(steps).Some? && code in RunWorld(steps).value.store.codes
    ensures var world := RunWorld(steps).value;
            && (world.store.codes[code].usedAt.Some? <==>
                exists r :: r in world.redemptions && world.redemptions[r].Won? && world.redemptions[r].code == code)
            && !(world.store.codes[code].usedAt.Some? && world.store.codes[code].cancelledAt.Some?)
  {
    EnrolmentHoldsInEveryRun(steps);
    var world := RunWorld(steps).value;
    assert CodeOk(world, code);
    forall r | r in world.redemptions && world.redemptions[r].Won? && world.redemptions[r].code == code
      ensures world.store.codes[code].usedAt.Some?
    {
      assert RedemptionOk(world, r);
    }
  }

  /// The status of a code is its fate: used if and only if a redemption won it, cancelled if and only if
  /// it was cancelled, whatever the clock says; and otherwise expired from its deadline on.
  lemma StatusIsFate(steps: seq<Step>, code: Id, now: int)
    requires RunWorld(steps).Some? && code in RunWorld(steps).value.store.codes
    ensures var world := RunWorld(steps).value;
            var record := world.store.codes[code];
            var won := exists r ::
              r in world.redemptions && world.redemptions[r].Won? && world.redemptions[r].code == code;
            match record.StatusAt(now)
            case Used => won
            case Cancelled => !won && record.cancelledAt.Some?
            case Expired => !won && record.cancelledAt.None? && now >= record.expiresAt
            case Pending => !won && record.cancelledAt.None? && now < record.expiresAt
  {
    UsedExactlyWhenWon(steps, code);
  }

  /// The device row of every redemption that lost and came to its end is revoked.
  lemma LosersAreRevoked(steps: seq<Step>, r: nat, device: Id)
    requires RunWorld(steps).Some?
    requires r in RunWorld(steps).value.redemptions
    requires RunWorld(steps).value.redemptions[r] == Refused(Some(device))
    ensures device in RunWorld(steps).value.store.devices
    ensures RunWorld(steps).value.store.devices[device].revokedAt.Some?
  {
    EnrolmentHoldsInEveryRun(steps);
    assert RedemptionOk(RunWorld(steps).value, r);
  }

  ghost predicate IsIssuing(step: Step, r: nat, device: Id) {
    step.Issue? && step.r == r && step.device == device
  }

  ghost predicate DisownedSince(steps: seq<Step>, i: nat, owner: Option<Id>) {
    exists j :: i < j < |steps| && steps[j].Disown? && owner == Some(steps[j].account)
  }

  /// The row was made at step `i`, under the name given there, of the code's kind and for the code's
  /// owner, whom it loses exactly if that account was deleted since.
  ghost predicate IsMadeAt(steps: seq<Step>, i: nat, row: DeviceRow, record: EnrollmentRecord)
    requires i < |steps| && steps[i].Issue?
  {
    && row.kind == record.kind && row.name == steps[i].name
    && row.ownerUserId == if DisownedSince(steps, i, record.ownerUserId) then None else record.ownerUserId
  }

  ghost predicate RowWasIssued(steps: seq<Step>, r: nat, row: DeviceRow, device: Id, record: EnrollmentRecord) {
    exists i :: 0 <= i < |steps| && IsIssuing(steps[i], r, device) && IsMadeAt(steps, i, row, record)
  }

  lemma RowStaysMade(steps: seq<Step>, i: nat, row: DeviceRow, after: DeviceRow, record: EnrollmentRecord)
    requires i < |steps| - 1 && steps[i].Issue?
    requires IsMadeAt(steps[..|steps| - 1], i, row, record)
    requires var step := steps[|steps| - 1];
             after.kind == row.kind && after.name == row.name
             && after.ownerUserId == if step.Disown? && row.ownerUserId == Some(step.account) then None
                                     else row.ownerUserId
    ensures IsMadeAt(steps, i, after, record)
  {
    var front := steps[..|steps| - 1];
    if DisownedSince(front, i, record.ownerUserId) {
      var j :| i < j < |front| && front[j].Disown? && record.ownerUserId == Some(front[j].account);
      assert steps[j] == front[j];
    } else if DisownedSince(steps, i, record.ownerUserId) {
      var j :| i < j < |steps| && steps[j].Disown? && record.ownerUserId == Some(steps[j].account);
      assert j < |front| ==> front[j] == steps[j];
    }
  }

  lemma RowAfterStep(world: World, step: Step, device: Id)
    requires CanStep(world, step) && device in world.store.devices
    ensures var row, after := world.store.devices[device], StepWorld(world, step).store.devices;
            && device in after
            && after[device].kind == row.kind && after[device].name == row.name
            && after[device].ownerUserId == if step.Disown? && row.ownerUserId == Some(step.account) then None
                                            else row.ownerUserId
  {}

  lemma CodeAfterStep(world: World, step: Step, code: Id)
    requires CanStep(world, step) && code in world.store.codes
    ensures var record, after := world.store.codes[code], StepWorld(world, step).store.codes;
            && code in after
            && after[code].kind == record.kind && after[code].ownerUserId == record.ownerUserId
  {}

  /// The row a redemption works on is the one it made, and is still what it was made as.
  lemma {:induction false} RowsAreAsIssued(steps: seq<Step>, r: nat)
    requires RunWorld(steps).Some? && r in RunWorld(steps).value.redemptions
    requires var phase := RunWorld(steps).value.redemptions[r]; phase.Issued? || phase.Losing? || phase.Won?
    ensures var store, phase := RunWorld(steps).value.store, RunWorld(steps).value.redemptions[r];
            && phase.device in store.devices && phase.code in store.codes
            && RowWasIssued(steps, r, store.devices[phase.device], phase.device, store.codes[phase.code])
  {
    var last := |steps| - 1;
    var front, step := steps[..last], steps[last];
    if step.Issue? && step.r == r {
      RowIsFresh(steps, r);
    } else {
      var phase := RunWorld(steps).value.redemptions[r];
      RowsAreAsIssued(front, r);
      IssuedStays(steps, r, phase.device, phase.code);
    }
  }

  lemma RowIsFresh(steps: seq<Step>, r: nat)
    requires RunWorld(steps).Some? && steps != [] && steps[|steps| - 1].Issue? && steps[|steps| - 1].r == r
    ensures r in RunWorld(steps).value.redemptions && RunWorld(steps).value.redemptions[r].Issued?
    ensures var store, phase := RunWorld(steps).value.store, RunWorld(steps).value.redemptions[r];
            && phase.device in store.devices && phase.code in store.codes
            && RowWasIssued(steps, r, store.devices[phase.device], phase.device, store.codes[phase.code])
  {
    var last := |steps| - 1;
    var after := RunWorld(steps).value;
    var phase := after.redemptions[r];
    assert IsIssuing(steps[last], r, phase.device);
    assert IsMadeAt(steps, last, after.store.devices[phase.device], after.store.codes[phase.code]);
  }

  lemma IssuedStays(steps: seq<Step>, r: nat, device: Id, code: Id)
    requires RunWorld(steps).Some? && steps != []
    requires var store := RunWorld(steps[..|steps| - 1]).value.store;
             && device in store.devices && code in store.codes
             && RowWasIssued(steps[..|steps| - 1], r, store.devices[device], device, store.codes[code])
    ensures var store := RunWorld(steps).value.store;
            && device in store.devices && code in store.codes
            && RowWasIssued(steps, r, store.devices[device], device, store.codes[code])
  {
    var front, step := steps[..|steps| - 1], steps[|steps| - 1];
    var before, after := RunWorld(front).value, RunWorld(steps).value;
    var row, record := before.store.devices[device], before.store.codes[code];
    var i :| 0 <= i < |front| && IsIssuing(front[i], r, device) && IsMadeAt(front, i, row, record);
    RowAfterStep(before, step, device);
    CodeAfterStep(before, step, code);
    RowStaysMade(steps, i, row, after.store.devices[device], record);
    assert IsIssuing(steps[i], r, device);
  }

  /// The device a credential was returned for is the one the code records and the redemption made: under
  /// the name it was given, of the kind the code was created for, and of the code's owner, unless that
  /// account was deleted since.
  lemma WinnersMatchTheirCode(steps: seq<Step>, r: nat, code: Id, device: Id)
    requires RunWorld(steps).Some?
    requires r in RunWorld(steps).value.redemptions && RunWorld(steps).value.redemptions[r].Won?
    requires RunWorld(steps).value.redemptions[r].code == code && RunWorld(steps).value.redemptions[r].device == device
    ensures var store := RunWorld(steps).value.store;
            && device in store.devices && code in store.codes
            && RowWasIssued(steps, r, store.devices[device], device, store.codes[code])
            && store.codes[code].usedByDeviceId == Some(device)
  {
    EnrolmentHoldsInEveryRun(steps);
    assert RedemptionOk(RunWorld(steps).value, r);
    RowsAreAsIssued(steps, r);
  }

  /// What the deadline guarantees: every redemption that got past its lookup, the winning one
  /// included, looked the code up before the deadline.
  lemma {:induction false} DeadlineGuardsTheLookup(steps: seq<Step>, r: nat)
    requires RunWorld(steps).Some? && r in RunWorld(steps).value.redemptions
    requires var phase := RunWorld(steps).value.redemptions[r];
             phase.Found? || phase.Issued? || phase.Losing? || phase.Won?
    ensures var world := RunWorld(steps).value;
            var phase := world.redemptions[r];
            && phase.code in world.store.codes
            && phase.lookedUpAt < world.store.codes[phase.code].expiresAt
  {
    EnrolmentHoldsInEveryRun(steps);
    assert RedemptionOk(RunWorld(steps).value, r);
  }

  /// A code is used after its deadline if and only if the redemption that won it burned it then.
  lemma UsedLateIffBurnedLate(steps: seq<Step>, code: Id)
    requires RunWorld(steps).Some? && code in RunWorld(steps).value.store.codes
    requires RunWorld(steps).value.store.codes[code].usedAt.Some?
    ensures var world := RunWorld(steps).value;
            var record := world.store.codes[code];
            && (record.usedAt.value >= record.expiresAt <==>
                exists r :: r in world.redemptions && world.redemptions[r].Won? && world.redemptions[r].code == code
                            && world.redemptions[r].burnedAt >= record.expiresAt)
            && (exists r :: r in world.redemptions && WonWith(world.redemptions[r], code, record)
                            && world.redemptions[r].lookedUpAt < record.expiresAt)
  {
    EnrolmentHoldsInEveryRun(steps);
    var world := RunWorld(steps).value;
    var record := world.store.codes[code];
    assert CodeOk(world, code);
    var winner :| winner in world.redemptions && WonWith(world.redemptions[winner], code, record);
    assert RedemptionOk(world, winner);
    forall r | r in world.redemptions && world.redemptions[r].Won? && world.redemptions[r].code == code
      ensures WonWith(world.redemptions[r], code, record)
    {
      assert RedemptionOk(world, r);
    }
  }

  /// What later steps can no longer undo.
  ghost predicate Settled(before: World, after: World) {
    && (forall code :: code in before.store.codes ==>
          && code in after.store.codes
          && (before.store.codes[code].usedAt.Some? ==>
                && after.store.codes[code].usedAt == before.store.codes[code].usedAt
                && after.store.codes[code].usedByDeviceId == before.store.codes[code].usedByDeviceId)
          && (before.store.codes[code].cancelledAt.Some? ==>
                after.store.codes[code].cancelledAt == before.store.codes[code].cancelledAt))
    && (forall device :: device in before.store.devices ==>
          && device in after.store.devices
          && (before.store.devices[device].revokedAt.Some? ==>
                after.store.devices[device].revokedAt == before.store.devices[device].revokedAt))
    && (forall r :: r in before.redemptions ==> r in after.redemptions)
  }

  lemma StepSettles(world: World, step: Step)
    requires CanStep(world, step)
    ensures Settled(world, StepWorld(world, step))
  {}

  lemma SettledFurther(before: World, middle: World, after: World)
    requires Settled(before, middle) && Settled(middle, after)
    ensures Settled(before, after)
  {}

  lemma {:induction false} SettledStays(steps: seq<Step>, n: nat)
    requires RunWorld(steps).Some? && n <= |steps|
    ensures RunWorld(steps[..n]).Some?
    ensures Settled(RunWorld(steps[..n]).value, RunWorld(steps).value)
  {
    if n == |steps| {
      assert steps[..n] == steps;
    } else {
      var front := steps[..|steps| - 1];
      SettledStays(front, n);
      assert front[..n] == steps[..n];
      var world, step := RunWorld(front).value, steps[|steps| - 1];
      StepSettles(world, step);
      SettledFurther(RunWorld(steps[..n]).value, world, StepWorld(world, step));
    }
  }

  /// Once a code has been cancelled no redemption of it succeeds, including those that looked it up
  /// while it was still pending.
  lemma CancelledCodesNeverWin(steps: seq<Step>, n: nat, code: Id, r: nat)
    requires RunWorld(steps).Some? && n <= |steps|
    requires RunWorld(steps[..n]).Some? && code in RunWorld(steps[..n]).value.store.codes
    requires RunWorld(steps[..n]).value.store.codes[code].cancelledAt.Some?
    requires r in RunWorld(steps).value.redemptions
    ensures !(RunWorld(steps).value.redemptions[r].Won? && RunWorld(steps).value.redemptions[r].code == code)
  {
    SettledStays(steps, n);
    EnrolmentHoldsInEveryRun(steps);
    var world := RunWorld(steps).value;
    assert CodeOk(world, code) && RedemptionOk(world, r);
  }

  ghost predicate WinsWith(world: World, r: nat, code: Id, device: Id, expiresAt: int, lookup: int, burn: int) {
    && r in world.redemptions && world.redemptions[r] == Won(code, device, lookup, burn)
    && code in world.store.codes && world.store.codes[code].expiresAt == expiresAt
    && world.store.codes[code].usedAt == Some(burn)
  }

  /// The deadline is checked at the lookup only: there is a run in which a redemption with these
  /// clock readings wins if and only if the lookup came before the deadline, whenever the burn was.
  lemma WinsIffLookedUpInTime(code: Id, device: Id, expiresAt: int, lookup: int, burn: int)
    ensures (exists steps, r :: RunWorld(steps).Some?
                                && WinsWith(RunWorld(steps).value, r, code, device, expiresAt, lookup, burn))
            <==> lookup < expiresAt
  {
    if lookup < expiresAt {
      var steps := WinningRun(code, device, expiresAt, lookup, burn);
      assert WinsWith(RunWorld(steps).value, 0, code, device, expiresAt, lookup, burn);
    }
    forall steps, r | RunWorld(steps).Some? && WinsWith(RunWorld(steps).value, r, code, device, expiresAt, lookup, burn)
      ensures lookup < expiresAt
    {
      DeadlineGuardsTheLookup(steps, r);
    }
  }

  lemma WinningRun(code: Id, device: Id, expiresAt: int, lookup: int, burn: int) returns (steps: seq<Step>)
    requires lookup < expiresAt
    ensures RunWorld(steps).Some? && WinsWith(RunWorld(steps).value, 0, code, device, expiresAt, lookup, burn)
  {
    var e1 := [CreateCode(code, Desktop, None, expiresAt)];
    var e2 := e1 + [LookUp(0, code, lookup)];
    var e3 := e2 + [Issue(0, device, "laptop")];
    steps := e3 + [Burn(0, burn)];
    assert e1[..0] == [] && e2[..1] == e1 && e3[..2] == e2 && steps[..3] == e3;
    assert RunWorld(e1) == Some(StepWorld(EMPTY, e1[0]));
    assert RunWorld(e2) == Some(StepWorld(RunWorld(e1).value, e2[1]));
    assert RunWorld(e3) == Some(StepWorld(RunWorld(e2).value, e3[2]));
    assert RunWorld(steps) == Some(StepWorld(RunWorld(e3).value, steps[3]));
  }

  // ---------- the tables, updated in place ----------

  datatype Outcome = Enrolled(device: Id) | InvalidCode

  /// What another caller does to a code between the lookup and the burn of a redemption.
  datatype Rival = NoRival | Redeems(device: Id, at: int) | Cancels(at: int)

  function Meanwhile(store: Store, code: Id, rival: Rival): Store {
    match rival
    case NoRival => store
    case Redeems(device, at) => Burned(store, code, device, at)
    case Cancels(at) => CancelledAt(store, code, at)
  }

  class Database {
    var codes: map<Id, EnrollmentRecord>
    var devices: map<Id, DeviceRow>

    ghost function Contents(): Store
      reads this
    {
      Store(codes, devices)
    }

    constructor ()
      ensures Contents() == EMPTY.store
    {
      codes, devices := map[], map[];
    }

    method CreateEnrollment(code: Id, kind: DeviceKind, owner: Option<Id>, expiresAt: int)
      requires code !in codes
      modifies this`codes
      ensures Contents() == WithCode(old(Contents()), code, kind, owner, expiresAt)
      ensures codes == old(codes)[code := EnrollmentRecord(kind, owner, expiresAt, None, None, None)]
    {
      codes := codes[code := EnrollmentRecord(kind, owner, expiresAt, None, None, None)];
    }

    method CreateDevice(device: Id, kind: DeviceKind, owner: Option<Id>, name: string)
      requires device !in devices
      modifies this`devices
      ensures Contents() == WithDevice(old(Contents()), device, kind, owner, name)
      ensures devices == old(devices)[device := DeviceRow(kind, name, owner, None)]
    {
      devices := devices[device := DeviceRow(kind, name, owner, None)];
    }

    /// Burns a code that is neither used nor cancelled, and touches no other.
    method MarkEnrollmentUsed(code: Id, device: Id, now: int) returns (changed: bool)
      modifies this`codes
      ensures changed <==> code in old(codes) && old(codes)[code].usedAt.None? && old(codes)[code].cancelledAt.None?
      ensures codes == if changed
                       then old(codes)[code := old(codes)[code].(usedAt := Some(now), usedByDeviceId := Some(device))]
                       else old(codes)
      ensures Contents() == Burned(old(Contents()), code, device, now)
    {
      changed := code in codes && codes[code].usedAt.None? && codes[code].cancelledAt.None?;
      if changed {
        codes := codes[code := codes[code].(usedAt := Some(now), usedByDeviceId := Some(device))];
      }
    }

    /// Cancels a code that is neither used nor cancelled, and touches no other.
    method CancelEnrollment(code: Id, now: int) returns (changed: bool)
      modifies this`codes
      ensures changed <==> code in old(codes) && old(codes)[code].usedAt.None? && old(codes)[code].cancelledAt.None?
      ensures codes == if changed then old(codes)[code := old(codes)[code].(cancelledAt := Some(now))] else old(codes)
      ensures Contents() == CancelledAt(old(Contents()), code, now)
    {
      changed := code in codes && codes[code].usedAt.None? && codes[code].cancelledAt.None?;
      if changed {
        codes := codes[code := codes[code].(cancelledAt := Some(now))];
      }
    }

    /// Revocation is permanent: a revoked device keeps its first timestamp.
    method RevokeDevice(device: Id, now: int) returns (changed: bool)
      modifies this`devices
      ensures changed <==> device in old(devices) && old(devices)[device].revokedAt.None?
      ensures devices == if changed then old(devices)[device := old(devices)[device].(revokedAt := Some(now))]
                         else old(devices)
      ensures Contents() == RevokedAt(old(Contents()), device, now)
    {
      changed := device in devices && devices[device].revokedAt.None?;
      if changed {
        devices := devices[device := devices[device].(revokedAt := Some(now))];
      }
    }

    /// The devices of an account stay, without their owner; all others are untouched.
    method DisownDevicesOf(owner: Id)
      modifies this`devices
      ensures Contents() == Disowned(old(Contents()), owner)
      ensures devices.Keys == old(devices).Keys
      ensures forall d :: d in devices ==>
                devices[d] == if old(devices)[d].ownerUserId == Some(owner)
                              then old(devices)[d].(ownerUserId := None)
                              else old(devices)[d]
    {
      devices := map d | d in devices ::
        if devices[d].ownerUserId == Some(owner) then devices[d].(ownerUserId := None) else devices[d];
    }

    /// Another caller's update of the same code, if one slips in.
    method Settle(code: Id, rival: Rival)
      modifies this`codes
      ensures Contents() == Meanwhile(old(Contents()), code, rival)
    {
      match rival {
        case NoRival =>
        case Redeems(device, at) =>
          var _ := MarkEnrollmentUsed(code, device, at);
        case Cancels(at) =>
          var _ := CancelEnrollment(code, at);
      }
    }

    /// A code that is neither used nor cancelled, at a reading before its deadline.
    predicate IsOpenUntil(code: Id, now: int)
      reads this
    {
      code in codes && codes[code].usedAt.None? && codes[code].cancelledAt.None? && now < codes[code].expiresAt
    }

    /// One redemption, with whatever a rival does to the code between its lookup and its burn. It
    /// returns a credential exactly when the code is pending at the lookup and no rival settles it;
    /// a redemption that loses leaves its own device row revoked and the rival's settlement alone.
    /// `freshDevice` is the generated id; `lookup`, `burn` and `revoke` are clock readings.
    method EnrollWithCode(code: Id, name: string, freshDevice: Id, lookup: int, rival: Rival, burn: int, revoke: int)
      returns (outcome: Outcome)
      requires freshDevice !in devices
      modifies this
      ensures outcome.Enrolled? <==> old(IsOpenUntil(code, lookup)) && rival.NoRival?
      ensures outcome.Enrolled? ==>
                && outcome.device == freshDevice
                && codes.Keys == old(codes).Keys
                && codes[code].usedAt == Some(burn) && codes[code].usedByDeviceId == Some(freshDevice)
                && lookup < codes[code].expiresAt
                && (forall other :: other in codes && other != code ==> codes[other] == old(codes)[other])
                && freshDevice in devices && devices[freshDevice].revokedAt.None?
                && devices[freshDevice].kind == codes[code].kind && devices[freshDevice].name == name
                && devices[freshDevice].ownerUserId == codes[code].ownerUserId
      ensures outcome.InvalidCode? ==>
                if old(IsOpenUntil(code, lookup)) then
                  && codes == (match rival
                               case NoRival => old(codes)
                               case Redeems(device, at) =>
                                 var used := old(codes)[code].(usedAt := Some(at), usedByDeviceId := Some(device));
                                 old(codes)[code := used]
                               case Cancels(at) => old(codes)[code := old(codes)[code].(cancelledAt := Some(at))])
                  && freshDevice in devices && devices[freshDevice].revokedAt == Some(revoke)
                else
                  codes == old(codes) && freshDevice !in devices
      ensures devices - {freshDevice} == old(devices)
    {
      if code !in codes || !codes[code].IsRedeemable(lookup) {
        assert devices - {freshDevice} == devices;
        return InvalidCode;
      }
      var record := codes[code];
      CreateDevice(freshDevice, record.kind, record.ownerUserId, name);
      Settle(code, rival);
      var burned := MarkEnrollmentUsed(code, freshDevice, burn);
      if !burned {
        var _ := RevokeDevice(freshDevice, revoke);
        return InvalidCode;
      }
      outcome := Enrolled(freshDevice);
    }
  }
}
