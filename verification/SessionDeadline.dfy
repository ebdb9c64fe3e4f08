/// Console sessions with a sliding deadline that is only written when it moves by an hour or more.
/// Resolving a token is several database calls; other requests, logouts and account changes may come
/// between any two of them, and the extension itself is not guarded by what the lookup saw.
module SessionDeadline {
  import opened Protocol

  const SESSION_LIFETIME_MS: int := 7 * 24 * 60 * 60 * 1000
  const SESSION_RENEWAL_THRESHOLD_MS: int := 60 * 60 * 1000

  datatype SessionRecord = SessionRecord(userId: Id, createdAt: int, expiresAt: int) {
    predicate IsExpired(now: int) {
      now >= expiresAt
    }
  }

  /// Sessions by the digest of their token, and which accounts exist (`true` when disabled).
  datatype Store = Store(sessions: map<string, SessionRecord>, disabled: map<Id, bool>)

  /// A deadline is written only when that moves it by the threshold or more.
  function RenewedExpiry(current: int, now: int): Option<int> {
    var extended := now + SESSION_LIFETIME_MS;
    if extended - current >= SESSION_RENEWAL_THRESHOLD_MS then Some(extended) else None
  }

  predicate IsActive(store: Store, userId: Id) {
    userId in store.disabled && !store.disabled[userId]
  }

  // ---------- the single database calls ----------

  function Created(store: Store, token: string, userId: Id, now: int): Store {
    store.(sessions := store.sessions[token := SessionRecord(userId, now, now + SESSION_LIFETIME_MS)])
  }

  /// The extension asks for nothing but the row.
  function Extended(store: Store, token: string, expiresAt: int): Store {
    if token in store.sessions
    then store.(sessions := store.sessions[token := store.sessions[token].(expiresAt := expiresAt)])
    else store
  }

  function Deleted(store: Store, token: string): Store {
    store.(sessions := store.sessions - {token})
  }

  function WithoutSessionsOf(store: Store, userId: Id): Store {
    store.(sessions := map t | t in store.sessions && store.sessions[t].userId != userId :: store.sessions[t])
  }

  function Swept(store: Store, now: int): Store {
    store.(sessions := map t | t in store.sessions && store.sessions[t].expiresAt > now :: store.sessions[t])
  }

  // ---------- one request that nothing disturbs ----------

  predicate IsUsable(store: Store, token: string, now: int) {
    token in store.sessions && !store.sessions[token].IsExpired(now) && IsActive(store, store.sessions[token].userId)
  }

  /// A session that cannot be used is deleted, one that can has its deadline slid forward.
  function Resolved(store: Store, token: string, now: int): Store {
    if token !in store.sessions then store
    else if !IsUsable(store, token, now) then Deleted(store, token)
    else
      match RenewedExpiry(store.sessions[token].expiresAt, now)
      case Some(expiresAt) => Extended(store, token, expiresAt)
      case None => store
  }

  // ---------- requests in any interleaving ----------

  /// How far one request has come, with the row its lookup saw and its clock reading.
  datatype Phase =
    | Found(token: string, seen: SessionRecord, now: int)
    | Extending(token: string, seen: SessionRecord, now: int)
    | Deleting(token: string)
    | Answered(user: Option<Id>)

  /// `issued` lists the digests of all tokens ever handed out.
  datatype World = World(store: Store, requests: map<nat, Phase>, issued: set<string>)

  datatype Step =
    | LookUp(r: nat, token: string, now: int)
    | CheckUser(r: nat)
    | Extend(r: nat)
    | Delete(r: nat)
    | Abort(r: nat)
    | Create(token: string, userId: Id, now: int)
    | Destroy(token: string)
    | DropSessionsOf(userId: Id)
    | Sweep(now: int)
    | SetAccount(userId: Id, disabled: bool)
    | DeleteAccount(userId: Id)

  const START := World(Store(map[], map[]), map[], {})

  /// A token is random, so no digest is issued twice.
  predicate CanStep(world: World, step: Step) {
    match step
    case LookUp(r, _, _) => r !in world.requests
    case CheckUser(r) => r in world.requests && world.requests[r].Found?
    case Extend(r) => r in world.requests && world.requests[r].Extending?
    case Delete(r) => r in world.requests && world.requests[r].Deleting?
    case Abort(r) => r in world.requests
    case Create(token, _, _) => token !in world.issued
    case _ => true
  }

  function AfterLookUp(store: Store, token: string, now: int): Phase {
    if token !in store.sessions then Answered(None)
    else if store.sessions[token].IsExpired(now) then Deleting(token)
    else Found(token, store.sessions[token], now)
  }

  function AfterCheck(store: Store, phase: Phase): Phase
    requires phase.Found?
  {
    if !IsActive(store, phase.seen.userId) then Deleting(phase.token)
    else if RenewedExpiry(phase.seen.expiresAt, phase.now).Some? then Extending(phase.token, phase.seen, phase.now)
    else Answered(Some(phase.seen.userId))
  }

  function StepWorld(world: World, step: Step): World
    requires CanStep(world, step)
  {
    var store, requests := world.store, world.requests;
    match step
    case LookUp(r, token, now) => world.(requests := requests[r := AfterLookUp(store, token, now)])
    case CheckUser(r) => world.(requests := requests[r := AfterCheck(store, requests[r])])
    case Extend(r) =>
      world.(store := Extended(store, requests[r].token, requests[r].now + SESSION_LIFETIME_MS),
             requests := requests[r := Answered(Some(requests[r].seen.userId))])
    case Delete(r) =>
      world.(store := Deleted(store, requests[r].token), requests := requests[r := Answered(None)])
    case Abort(r) => world.(requests := requests[r := Answered(None)])
    case Create(token, userId, now) =>
      world.(store := Created(store, token, userId, now), issued := world.issued + {token})
    case Destroy(token) => world.(store := Deleted(store, token))
    case DropSessionsOf(userId) => world.(store := WithoutSessionsOf(store, userId))
    case Sweep(now) => world.(store := Swept(store, now))
    case SetAccount(userId, disabled) => world.(store := store.(disabled := store.disabled[userId := disabled]))
    case DeleteAccount(userId) => world.(store := store.(disabled := store.disabled - {userId}))
  }

  /// The world a list of steps leads to, if every one of them could happen when its turn came.
  function RunWorld(steps: seq<Step>): Option<World> {
    if steps == [] then Some(START)
    else
      var before := RunWorld(steps[..|steps| - 1]);
      if before.Some? && CanStep(before.value, steps[|steps| - 1])
      then Some(StepWorld(before.value, steps[|steps| - 1]))
      else None
  }

  /// One request whose calls come one right after another has the effect of `Resolved`.
  lemma UndisturbedRequestResolves(world: World, r: nat, token: string, now: int)
    requires r !in world.requests
    ensures var found := StepWorld(world, LookUp(r, token, now));
            match found.requests[r]
            case Answered(_) => found.store == Resolved(world.store, token, now)
            case Deleting(_) => StepWorld(found, Delete(r)).store == Resolved(world.store, token, now)
            case Found(_, _, _) =>
              var checked := StepWorld(found, CheckUser(r));
              (match checked.requests[r]
               case Answered(_) => checked.store == Resolved(world.store, token, now)
               case Deleting(_) => StepWorld(checked, Delete(r)).store == Resolved(world.store, token, now)
               case Extending(_, _, _) => StepWorld(checked, Extend(r)).store == Resolved(world.store, token, now)
               case Found(_, _, _) => false)
            case Extending(_, _, _) => false
  {}

  /// What a lookup and a check lead to, by the row and the account as they are at that moment: a request
  /// goes on only with a row that has not run out, and then only with an account that is there and
  /// enabled; a row that is there and fails either test is deleted.
  lemma RequestGoesOnIff(world: World, r: nat, token: string, now: int)
    ensures CanStep(world, LookUp(r, token, now)) ==>
              var phase := StepWorld(world, LookUp(r, token, now)).requests[r];
              if token !in world.store.sessions then phase == Answered(None)
              else if now < world.store.sessions[token].expiresAt
                   then phase == Found(token, world.store.sessions[token], now)
                   else phase == Deleting(token)
    ensures CanStep(world, CheckUser(r)) ==>
              var found, phase := world.requests[r], StepWorld(world, CheckUser(r)).requests[r];
              var user := found.seen.userId;
              if user in world.store.disabled && !world.store.disabled[user] then
                if found.now + 604_800_000 - found.seen.expiresAt >= 3_600_000
                then phase == Extending(found.token, found.seen, found.now)
                else phase == Answered(Some(user))
              else phase == Deleting(found.token)
  {}

  /// What the steps that remove sessions take and what they leave, and that none of them changes a row.
  lemma RemovalsAreScoped(world: World, step: Step, t: string)
    requires CanStep(world, step) && (step.Delete? || step.Destroy? || step.DropSessionsOf? || step.Sweep?)
    ensures var before, after := world.store.sessions, StepWorld(world, step).store.sessions;
            && (t in after <==> t in before && match step
                                case Delete(r) => t != world.requests[r].token
                                case Destroy(token) => t != token
                                case DropSessionsOf(userId) => before[t].userId != userId
                                case Sweep(now) => now < before[t].expiresAt
                                case _ => true)
            && (t in after ==> after[t] == before[t])
    ensures StepWorld(world, step).store.disabled == world.store.disabled
  {}

  // ---------- what a run did with one session ----------

  predicate IsPending(phase: Phase, token: string) {
    (phase.Found? || phase.Extending?) && phase.token == token
  }

  /// Past its lookup, and about to write the deadline unless its account is found unusable.
  predicate IsDue(phase: Phase, token: string) {
    IsPending(phase, token) && RenewedExpiry(phase.seen.expiresAt, phase.now).Some?
  }

  function DueRequests(world: World, token: string): set<nat> {
    set r | r in world.requests && IsDue(world.requests[r], token)
  }

  /// The reading a step writes the deadline with, if it finds the row.
  function Written(world: World, step: Step, token: string): Option<int> {
    if step.Extend? && step.r in world.requests && world.requests[step.r].Extending?
       && world.requests[step.r].token == token && token in world.store.sessions
    then Some(world.requests[step.r].now)
    else None
  }

  function Max(a: int, b: int): int {
    if a >= b then a else b
  }

  /// `top` is the highest reading the deadline was written with, `latest` the highest of any lookup
  /// that found the session alive, `answered` the highest of a request that was answered with the
  /// account. `peak` is the largest number of requests that were due at once, and `slip` the furthest
  /// a write fell behind a reading already written. `clean` counts the writes that replaced the
  /// deadline their lookup saw, and `lost` adds up by how much deadlines were moved back.
  datatype History = History(
    created: int,
    top: int,
    latest: int,
    answered: int,
    writes: nat,
    clean: nat,
    lost: nat,
    peak: nat,
    slip: nat)

  function HistoryAfter(world: World, step: Step, token: string, was: History): History
    requires CanStep(world, step)
  {
    match step
    case Create(created, _, now) => if created == token then History(now, now, now, now, 0, 0, 0, 0, 0) else was
    case LookUp(_, presented, now) =>
      if presented == token && token in world.store.sessions && !world.store.sessions[token].IsExpired(now)
      then was.(latest := Max(was.latest, now),
                peak := Max(was.peak, |DueRequests(StepWorld(world, step), token)|))
      else was
    case CheckUser(r) =>
      if world.requests[r].token == token && AfterCheck(world.store, world.requests[r]).Answered?
      then was.(answered := Max(was.answered, world.requests[r].now))
      else was
    case Extend(r) =>
      if Written(world, step, token).None? then was
      else
        var now, deadline := world.requests[r].now, world.store.sessions[token].expiresAt;
        was.(top := Max(was.top, now), answered := Max(was.answered, now), writes := was.writes + 1,
             clean := if deadline == world.requests[r].seen.expiresAt then was.clean + 1 else was.clean,
             lost := was.lost + Max(0, deadline - (now + SESSION_LIFETIME_MS)),
             slip := Max(was.slip, was.top - now))
    case _ => was
  }

  function HistoryOf(steps: seq<Step>, token: string): History
    requires RunWorld(steps).Some?
  {
    if steps == [] then History(0, 0, 0, 0, 0, 0, 0, 0, 0)
    else
      var front := steps[..|steps| - 1];
      HistoryAfter(RunWorld(front).value, steps[|steps| - 1], token, HistoryOf(front, token))
  }

  // ---------- the deadline ----------

  /// A digest that was never issued is nowhere.
  ghost predicate IssuedOnce(world: World) {
    && world.store.sessions.Keys <= world.issued
    && (forall r :: r in world.requests && !world.requests[r].Answered? ==> world.requests[r].token in world.issued)
  }

  /// Seven days after the highest reading written, at most, and behind that by no more than the slip.
  ghost predicate DeadlineBounds(session: SessionRecord, h: History) {
    && session.createdAt == h.created
    && h.created <= h.top <= h.latest
    && h.answered < h.top + SESSION_RENEWAL_THRESHOLD_MS
    && h.top - h.slip <= session.expiresAt - SESSION_LIFETIME_MS <= h.top
    && session.expiresAt >= h.created + SESSION_LIFETIME_MS + h.clean * SESSION_RENEWAL_THRESHOLD_MS - h.lost
  }

  /// What a pending request saw was a deadline of this session.
  ghost predicate PendingBounds(phase: Phase, h: History) {
    phase.Found? || phase.Extending? ==>
      && phase.now <= h.latest
      && phase.seen.expiresAt - SESSION_LIFETIME_MS <= h.top
      && (phase.Extending? ==> RenewedExpiry(phase.seen.expiresAt, phase.now).Some?)
  }

  ghost predicate SessionBounds(world: World, token: string, h: History) {
    && IssuedOnce(world)
    && (token in world.store.sessions ==>
          && DeadlineBounds(world.store.sessions[token], h)
          && (forall r {:trigger PendingBounds(world.requests[r], h)} ::
                r in world.requests && IsPending(world.requests[r], token) ==> PendingBounds(world.requests[r], h)))
  }

  lemma StepKeepsIssued(world: World, step: Step)
    requires CanStep(world, step) && IssuedOnce(world)
    ensures IssuedOnce(StepWorld(world, step))
  {}

  lemma StepKeepsBounds(world: World, step: Step, token: string, was: History)
    requires CanStep(world, step) && SessionBounds(world, token, was)
    ensures SessionBounds(StepWorld(world, step), token, HistoryAfter(world, step, token, was))
  {
    var after, h := StepWorld(world, step), HistoryAfter(world, step, token, was);
    StepKeepsIssued(world, step);
    if token in after.store.sessions && token in world.store.sessions {
      assert step.CheckUser? || step.Extend? ==> IsPending(world.requests[step.r], world.requests[step.r].token);
      assert step.CheckUser? || step.Extend? ==>
          world.requests[step.r].token == token ==> PendingBounds(world.requests[step.r], was);
      forall r | r in after.requests && IsPending(after.requests[r], token)
        ensures PendingBounds(after.requests[r], h)
      {
        assert r in world.requests && IsPending(world.requests[r], token) ==> PendingBounds(world.requests[r], was);
      }
    }
  }

  lemma {:induction false} BoundsHoldInEveryRun(steps: seq<Step>, token: string)
    requires RunWorld(steps).Some?
    ensures SessionBounds(RunWorld(steps).value, token, HistoryOf(steps, token))
  {
    if steps != [] {
      var front := steps[..|steps| - 1];
      BoundsHoldInEveryRun(front, token);
      StepKeepsBounds(RunWorld(front).value, steps[|steps| - 1], token, HistoryOf(front, token));
    }
  }

  /// In every run the deadline of a session that is there lies between these bounds, and no answer is
  /// ahead of it by seven days less an hour or more.
  lemma DeadlineIsBounded(steps: seq<Step>, token: string)
    requires RunWorld(steps).Some? && token in RunWorld(steps).value.store.sessions
    ensures var session, h := RunWorld(steps).value.store.sessions[token], HistoryOf(steps, token);
            && DeadlineBounds(session, h)
            && session.expiresAt <= h.latest + SESSION_LIFETIME_MS
            && session.expiresAt > h.answered + SESSION_LIFETIME_MS - SESSION_RENEWAL_THRESHOLD_MS - h.slip
  {
    BoundsHoldInEveryRun(steps, token);
  }

  /// A request no later than seven days less an hour, and less what a write has slipped, after one that
  /// was answered finds the session alive; one seven days after every reading written does not.
  lemma RegularUseNeverExpires(steps: seq<Step>, token: string, now: int)
    requires RunWorld(steps).Some? && token in RunWorld(steps).value.store.sessions
    ensures var store, h := RunWorld(steps).value.store, HistoryOf(steps, token);
            && (now <= h.answered + SESSION_LIFETIME_MS - SESSION_RENEWAL_THRESHOLD_MS - h.slip ==>
                  AfterLookUp(store, token, now).Found? && token in Swept(store, now).sessions)
            && (now >= h.top + SESSION_LIFETIME_MS ==>
                  AfterLookUp(store, token, now).Deleting? && token !in Swept(store, now).sessions)
  {
    DeadlineIsBounded(steps, token);
  }

  // ---------- when a write moves the deadline back ----------

  lemma {:induction false} PrefixRuns(steps: seq<Step>, n: nat)
    requires RunWorld(steps).Some? && n <= |steps|
    ensures RunWorld(steps[..n]).Some?
    ensures n < |steps| ==>
              && CanStep(RunWorld(steps[..n]).value, steps[n])
              && RunWorld(steps[..n + 1]) == Some(StepWorld(RunWorld(steps[..n]).value, steps[n]))
  {
    if n == |steps| {
      assert steps[..n] == steps;
    } else {
      var front := steps[..|steps| - 1];
      PrefixRuns(front, n);
      assert front[..n] == steps[..n];
      if n < |front| {
        assert front[..n + 1] == steps[..n + 1];
      } else {
        assert steps[..n] == front && steps[..n + 1] == steps;
      }
    }
  }

  /// The reading of the last write of the deadline among steps `i` up to `n`.
  function LastWritten(steps: seq<Step>, i: nat, n: nat, token: string): Option<int>
    requires i <= n <= |steps|
    decreases n
  {
    if n == i then None
    else
      var world := RunWorld(steps[..n - 1]);
      if world.Some? && Written(world.value, steps[n - 1], token).Some?
      then Written(world.value, steps[n - 1], token)
      else LastWritten(steps, i, n - 1, token)
  }

  /// A step that leaves a session in place changes its deadline only by writing it.
  lemma StepWritesDeadline(world: World, step: Step, token: string)
    requires CanStep(world, step) && IssuedOnce(world) && token in world.issued
    requires token in StepWorld(world, step).store.sessions
    ensures token in world.store.sessions
    ensures StepWorld(world, step).store.sessions[token].expiresAt ==
            if Written(world, step, token).Some? then Written(world, step, token).value + SESSION_LIFETIME_MS
            else world.store.sessions[token].expiresAt
  {}

  /// At point `n` the deadline is what was last written since point `i`, or still what it was there.
  ghost predicate DeadlineSince(steps: seq<Step>, i: nat, n: nat, token: string)
    requires i <= n <= |steps|
  {
    && RunWorld(steps[..i]).Some? && token in RunWorld(steps[..i]).value.store.sessions
    && RunWorld(steps[..n]).Some? && IssuedOnce(RunWorld(steps[..n]).value)
    && token in RunWorld(steps[..n]).value.issued
    && (token in RunWorld(steps[..n]).value.store.sessions ==>
          RunWorld(steps[..n]).value.store.sessions[token].expiresAt ==
          if LastWritten(steps, i, n, token).Some?
          then LastWritten(steps, i, n, token).value + SESSION_LIFETIME_MS
          else RunWorld(steps[..i]).value.store.sessions[token].expiresAt)
  }

  lemma DeadlineSinceNext(steps: seq<Step>, i: nat, n: nat, token: string)
    requires RunWorld(steps).Some? && i <= n < |steps| && DeadlineSince(steps, i, n, token)
    ensures DeadlineSince(steps, i, n + 1, token)
  {
    PrefixRuns(steps, n);
    var world, step := RunWorld(steps[..n]).value, steps[n];
    StepKeepsIssued(world, step);
    if token in StepWorld(world, step).store.sessions {
      StepWritesDeadline(world, step, token);
    }
  }

  lemma {:induction false} DeadlineIsLastWritten(steps: seq<Step>, i: nat, n: nat, token: string)
    requires RunWorld(steps).Some? && i <= n <= |steps|
    requires RunWorld(steps[..i]).Some? && token in RunWorld(steps[..i]).value.store.sessions
    ensures DeadlineSince(steps, i, n, token)
    decreases n
  {
    if n == i {
      BoundsHoldInEveryRun(steps[..n], token);
    } else {
      DeadlineIsLastWritten(steps, i, n - 1, token);
      DeadlineSinceNext(steps, i, n - 1, token);
    }
  }

  /// As long as a request is pending it carries what its lookup saw in the world `before`.
  ghost predicate Remembers(before: World, after: World, r: nat, token: string, now: int) {
    && r in after.requests
    && (after.requests[r].Found? || after.requests[r].Extending? ==>
          && after.requests[r].token == token && after.requests[r].now == now
          && token in before.store.sessions && after.requests[r].seen == before.store.sessions[token])
  }

  lemma LookUpRemembers(world: World, r: nat, token: string, now: int)
    requires CanStep(world, LookUp(r, token, now))
    ensures Remembers(world, StepWorld(world, LookUp(r, token, now)), r, token, now)
  {}

  lemma StepRemembers(before: World, world: World, step: Step, r: nat, token: string, now: int)
    requires CanStep(world, step) && Remembers(before, world, r, token, now)
    ensures Remembers(before, StepWorld(world, step), r, token, now)
  {}

  lemma RemembersFirst(steps: seq<Step>, i: nat, r: nat, token: string, now: int)
    requires RunWorld(steps).Some? && i < |steps| && steps[i] == LookUp(r, token, now)
    ensures RunWorld(steps[..i]).Some? && RunWorld(steps[..i + 1]).Some?
    ensures Remembers(RunWorld(steps[..i]).value, RunWorld(steps[..i + 1]).value, r, token, now)
  {
    PrefixRuns(steps, i);
    LookUpRemembers(RunWorld(steps[..i]).value, r, token, now);
  }

  lemma RemembersNext(steps: seq<Step>, i: nat, n: nat, r: nat, token: string, now: int)
    requires RunWorld(steps).Some? && i < n < |steps|
    requires RunWorld(steps[..i]).Some? && RunWorld(steps[..n]).Some?
    requires Remembers(RunWorld(steps[..i]).value, RunWorld(steps[..n]).value, r, token, now)
    ensures RunWorld(steps[..n + 1]).Some?
    ensures Remembers(RunWorld(steps[..i]).value, RunWorld(steps[..n + 1]).value, r, token, now)
  {
    PrefixRuns(steps, n);
    StepRemembers(RunWorld(steps[..i]).value, RunWorld(steps[..n]).value, steps[n], r, token, now);
  }

  lemma {:induction false} PendingRemembers(steps: seq<Step>, i: nat, n: nat, r: nat, token: string, now: int)
    requires RunWorld(steps).Some? && i < n <= |steps| && steps[i] == LookUp(r, token, now)
    ensures RunWorld(steps[..i]).Some? && RunWorld(steps[..n]).Some?
    ensures Remembers(RunWorld(steps[..i]).value, RunWorld(steps[..n]).value, r, token, now)
    decreases n
  {
    if n == i + 1 {
      RemembersFirst(steps, i, r, token, now);
    } else {
      PendingRemembers(steps, i, n - 1, r, token, now);
      RemembersNext(steps, i, n - 1, r, token, now);
    }
  }

  /// A write moves the deadline back if and only if the last write since its lookup carried a later
  /// reading. It replaces another deadline than the one its lookup saw if and only if there was a write
  /// since, of another deadline; otherwise it moves the deadline forward by an hour or more.
  lemma ExtendMovesBackIff(steps: seq<Step>, i: nat, j: nat, r: nat, token: string, now: int)
    requires RunWorld(steps).Some? && i < j < |steps|
    requires steps[i] == LookUp(r, token, now) && steps[j] == Extend(r)
    requires RunWorld(steps[..j]).Some? && token in RunWorld(steps[..j]).value.store.sessions
    ensures RunWorld(steps[..i]).Some? && RunWorld(steps[..j + 1]).Some?
    ensures token in RunWorld(steps[..i]).value.store.sessions && token in RunWorld(steps[..j + 1]).value.store.sessions
    ensures var seen := RunWorld(steps[..i]).value.store.sessions[token].expiresAt;
            var before := RunWorld(steps[..j]).value.store.sessions[token].expiresAt;
            var after := RunWorld(steps[..j + 1]).value.store.sessions[token].expiresAt;
            var last := LastWritten(steps, i + 1, j, token);
            && after == now + SESSION_LIFETIME_MS
            && (after < before <==> last.Some? && last.value > now)
            && (before != seen <==> last.Some? && last.value + SESSION_LIFETIME_MS != seen)
            && (before == seen ==> after >= before + SESSION_RENEWAL_THRESHOLD_MS)
  {
    PrefixRuns(steps, j);
    PendingRemembers(steps, i, j, r, token, now);
    PrefixRuns(steps, i);
    BoundsHoldInEveryRun(steps[..j], token);
    assert PendingBounds(RunWorld(steps[..j]).value.requests[r], HistoryOf(steps[..j], token));
    DeadlineIsLastWritten(steps, i + 1, j, token);
  }

  /// A request that saw a session expired deletes it although it is alive by the same reading, if and
  /// only if the last write since its lookup moved the deadline past that reading.
  lemma DeleteTakesLiveSessionIff(steps: seq<Step>, i: nat, j: nat, r: nat, token: string, now: int)
    requires RunWorld(steps).Some? && i < j < |steps|
    requires steps[i] == LookUp(r, token, now) && steps[j] == Delete(r)
    requires RunWorld(steps[..i]).Some? && token in RunWorld(steps[..i]).value.store.sessions
    requires RunWorld(steps[..i]).value.store.sessions[token].IsExpired(now)
    requires RunWorld(steps[..j]).Some? && token in RunWorld(steps[..j]).value.store.sessions
    ensures !RunWorld(steps[..j]).value.store.sessions[token].IsExpired(now) <==>
            var last := LastWritten(steps, i + 1, j, token);
            last.Some? && now < last.value + SESSION_LIFETIME_MS
  {
    PrefixRuns(steps, i);
    DeadlineIsLastWritten(steps, i + 1, j, token);
  }

  // ---------- the store, updated in place ----------

  class Sessions {
    var sessions: map<string, SessionRecord>
    var disabled: map<Id, bool>

    ghost function Contents(): Store
      reads this
    {
      Store(sessions, disabled)
    }

    constructor ()
      ensures Contents() == Store(map[], map[])
    {
      sessions, disabled := map[], map[];
    }

    method CreateSession(token: string, userId: Id, now: int)
      requires token !in sessions
      modifies this`sessions
      ensures Contents() == Created(old(Contents()), token, userId, now)
      ensures sessions == old(sessions)[token := SessionRecord(userId, now, now + 604_800_000)]
    {
      sessions := sessions[token := SessionRecord(userId, now, now + SESSION_LIFETIME_MS)];
    }

    method ExtendSession(token: string, expiresAt: int)
      modifies this`sessions
      ensures Contents() == Extended(old(Contents()), token, expiresAt)
      ensures sessions.Keys == old(sessions).Keys && sessions - {token} == old(sessions) - {token}
      ensures token in sessions ==> sessions[token] == old(sessions)[token].(expiresAt := expiresAt)
    {
      if token in sessions {
        sessions := sessions[token := sessions[token].(expiresAt := expiresAt)];
      }
    }

    method DeleteSession(token: string)
      modifies this`sessions
      ensures Contents() == Deleted(old(Contents()), token)
      ensures token !in sessions && sessions - {token} == old(sessions) - {token}
    {
      sessions := sessions - {token};
    }

    /// The sessions of one account go, and no other.
    method DeleteSessionsOfUser(userId: Id)
      modifies this`sessions
      ensures Contents() == WithoutSessionsOf(old(Contents()), userId)
      ensures forall t :: t in sessions <==> t in old(sessions) && old(sessions)[t].userId != userId
      ensures forall t :: t in sessions ==> sessions[t] == old(sessions)[t]
    {
      sessions := map t | t in sessions && sessions[t].userId != userId :: sessions[t];
    }

    /// By a call nothing disturbs: the account, if and only if the session is there and not run out and
    /// the account is there and enabled; its deadline is then less than seven days away by no more than
    /// an hour. A session that is not answered with its account does not survive, and no other session
    /// is touched.
    method ResolveSession(token: string, now: int) returns (user: Option<Id>)
      modifies this`sessions
      ensures Contents() == Resolved(old(Contents()), token, now)
      ensures user.Some? <==>
                && token in old(sessions) && now < old(sessions)[token].expiresAt
                && old(sessions)[token].userId in disabled && !disabled[old(sessions)[token].userId]
      ensures user.Some? ==>
                && user.value == old(sessions)[token].userId
                && token in sessions
                && sessions[token].userId == user.value && sessions[token].createdAt == old(sessions)[token].createdAt
                && sessions[token].expiresAt == if now + 604_800_000 - old(sessions)[token].expiresAt >= 3_600_000
                                                then now + 604_800_000
                                                else old(sessions)[token].expiresAt
      ensures user.None? ==> token !in sessions
      ensures sessions - {token} == old(sessions) - {token}
    {
      if token !in sessions {
        return None;
      }
      var session := sessions[token];
      if session.IsExpired(now) {
        DeleteSession(token);
        return None;
      }
      if session.userId !in disabled {
        DeleteSession(token);
        return None;
      }
      if disabled[session.userId] {
        DeleteSession(token);
        return None;
      }
      var renewed := RenewedExpiry(session.expiresAt, now);
      if renewed.Some? {
        ExtendSession(token, renewed.value);
      }
      user := Some(session.userId);
    }

    method DeleteExpiredSessions(now: int) returns (removed: nat)
      modifies this`sessions
      ensures Contents() == Swept(old(Contents()), now)
      ensures forall t :: t in sessions <==> t in old(sessions) && now < old(sessions)[t].expiresAt
      ensures forall t :: t in sessions ==> sessions[t] == old(sessions)[t]
      ensures removed + |sessions| == |old(sessions)|
    {
      var kept := map t | t in sessions && sessions[t].expiresAt > now :: sessions[t];
      assert kept.Keys <= sessions.Keys;
      KeptIsSmaller(kept.Keys, sessions.Keys);
      removed := |sessions| - |kept|;
      sessions := kept;
    }
  }

  lemma KeptIsSmaller(kept: set<string>, all: set<string>)
    requires kept <= all
    ensures |kept| <= |all|
  {
    assert all == kept + (all - kept);
  }
}
