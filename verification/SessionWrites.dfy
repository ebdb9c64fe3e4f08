/// How often the deadline of one console session is written, however many requests overlap, and what
/// becomes of these bounds when none do.
module SessionWrites {
  import opened Protocol
  import opened SessionDeadline

  // ---------- writes in batches ----------

  /// The writes of a session in batches. A batch is opened by a request that looked the session up after
  /// the previous batch was opened; the others in it were due when it was opened and still `waiting`.
  /// `start` is the highest reading written once the opening write was done.
  datatype Batches = Batches(count: nat, writes: nat, start: int, waiting: set<nat>)

  function BatchesAfter(world: World, step: Step, token: string, h: History, was: Batches): Batches
    requires CanStep(world, step)
  {
    if step.Create? then
      if step.token == token then Batches(0, 0, step.now, {}) else was
    else if Written(world, step, token).Some? then
      if step.r in was.waiting then was.(writes := was.writes + 1, waiting := was.waiting - {step.r})
      else Batches(was.count + 1, 1, Max(h.top, world.requests[step.r].now), DueRequests(StepWorld(world, step), token))
    else
      was.(waiting := was.waiting * DueRequests(StepWorld(world, step), token))
  }

  function BatchesOf(steps: seq<Step>, token: string): Batches
    requires RunWorld(steps).Some?
  {
    if steps == [] then Batches(0, 0, 0, {})
    else
      var front := steps[..|steps| - 1];
      BatchesAfter(RunWorld(front).value, steps[|steps| - 1], token, HistoryOf(front, token), BatchesOf(front, token))
  }

  /// The readings that opened the batches are at least an hour less the slip apart.
  ghost predicate OpenedLate(h: History, b: Batches) {
    && b.start <= h.top
    && (b.count == 0 ==> b.start == h.created && h.top == h.created && h.slip == 0)
    && (b.count > 0 ==>
          b.start >= h.created + SESSION_RENEWAL_THRESHOLD_MS
                      + (b.count - 1) * (SESSION_RENEWAL_THRESHOLD_MS - h.slip))
  }

  /// A batch holds no more writes than requests were due at once.
  ghost predicate BatchesFit(h: History, b: Batches) {
    && (b.count == 0 ==> h.writes == 0 && b.waiting == {})
    && (b.count > 0 ==> b.writes + |b.waiting| <= h.peak && h.writes + h.peak <= h.peak * b.count + b.writes)
  }

  /// A due request that is not waiting saw a deadline written after the batch was opened.
  ghost predicate SawBatch(phase: Phase, h: History, b: Batches) {
    phase.Found? || phase.Extending? ==>
      phase.seen.expiresAt >= b.start + SESSION_LIFETIME_MS - h.slip
  }

  ghost predicate LateOnesSaw(world: World, token: string, h: History, b: Batches) {
    forall r {:trigger SawBatch(world.requests[r], h, b)} ::
      r in world.requests && IsDue(world.requests[r], token) && r !in b.waiting ==> SawBatch(world.requests[r], h, b)
  }

  ghost predicate BatchBounds(world: World, token: string, h: History, b: Batches) {
    token in world.store.sessions ==>
      && b.waiting <= DueRequests(world, token)
      && |DueRequests(world, token)| <= h.peak
      && OpenedLate(h, b)
      && BatchesFit(h, b)
      && LateOnesSaw(world, token, h, b)
  }

  lemma ProductGrows(n: nat, small: int, large: int)
    requires small <= large
    ensures n * small <= n * large
  {
    assert n * (large - small) >= 0;
  }

  lemma FewerIsLess(some: set<nat>, all: set<nat>)
    requires some <= all
    ensures |some| <= |all|
  {
    assert all == some + (all - some);
  }

  // ---------- a write ----------

  lemma WaitingWriteFits(h: History, b: Batches, after: History, now: nat)
    requires b.count > 0 && BatchesFit(h, b) && now in b.waiting
    requires after.peak == h.peak && after.writes == h.writes + 1
    ensures BatchesFit(after, b.(writes := b.writes + 1, waiting := b.waiting - {now}))
  {}

  lemma OpeningWriteFits(h: History, b: Batches, after: History, start: int, waiting: set<nat>)
    requires BatchesFit(h, b) && after.peak == h.peak && after.writes == h.writes + 1
    requires 1 + |waiting| <= h.peak
    ensures BatchesFit(after, Batches(b.count + 1, 1, start, waiting))
  {
    if b.count > 0 {
      assert h.writes <= h.peak * b.count;
    }
    assert h.peak * (b.count + 1) == h.peak * b.count + h.peak;
  }

  lemma SlipKeepsOpened(h: History, b: Batches, after: History)
    requires b.count > 0 && OpenedLate(h, b)
    requires after.created == h.created && after.top >= h.top && after.slip >= h.slip
    ensures OpenedLate(after, b)
  {
    ProductGrows(b.count - 1, SESSION_RENEWAL_THRESHOLD_MS - after.slip, SESSION_RENEWAL_THRESHOLD_MS - h.slip);
  }

  lemma OpeningWriteIsLate(h: History, b: Batches, after: History, now: int, waiting: set<nat>)
    requires OpenedLate(h, b) && now >= b.start + SESSION_RENEWAL_THRESHOLD_MS - h.slip
    requires after.created == h.created && after.top == Max(h.top, now) && after.slip >= h.slip
    ensures OpenedLate(after, Batches(b.count + 1, 1, after.top, waiting))
  {
    var gap, less := SESSION_RENEWAL_THRESHOLD_MS - h.slip, SESSION_RENEWAL_THRESHOLD_MS - after.slip;
    ProductGrows(b.count, less, gap);
    if b.count > 0 {
      assert b.count * gap == (b.count - 1) * gap + gap;
    }
  }

  /// What a write makes of the history and of the due requests.
  lemma WriteEffect(world: World, step: Step, token: string, h: History)
    requires CanStep(world, step) && Written(world, step, token).Some? && SessionBounds(world, token, h)
    ensures var later, now := HistoryAfter(world, step, token, h), world.requests[step.r].now;
            && later.created == h.created && later.top == Max(h.top, now) && later.slip >= h.slip
            && later.writes == h.writes + 1 && later.peak == h.peak
    ensures step.r in DueRequests(world, token)
    ensures DueRequests(StepWorld(world, step), token) == DueRequests(world, token) - {step.r}
    ensures world.requests[step.r].now + SESSION_LIFETIME_MS
         >= world.requests[step.r].seen.expiresAt + SESSION_RENEWAL_THRESHOLD_MS
  {
    assert PendingBounds(world.requests[step.r], h);
  }

  lemma WaitingWriteKeepsBatches(world: World, step: Step, token: string, h: History, b: Batches)
    requires CanStep(world, step) && Written(world, step, token).Some? && step.r in b.waiting
    requires SessionBounds(world, token, h) && BatchBounds(world, token, h, b)
    ensures BatchBounds(StepWorld(world, step), token, HistoryAfter(world, step, token, h),
                        BatchesAfter(world, step, token, h, b))
  {
    var later := HistoryAfter(world, step, token, h);
    WriteEffect(world, step, token, h);
    WaitingWriteFits(h, b, later, step.r);
    SlipKeepsOpened(h, b, later);
    LateOnesStay(world, step, token, h, b);
  }

  lemma OpeningWriteKeepsBatches(world: World, step: Step, token: string, h: History, b: Batches)
    requires CanStep(world, step) && Written(world, step, token).Some? && step.r !in b.waiting
    requires SessionBounds(world, token, h) && BatchBounds(world, token, h, b)
    ensures BatchBounds(StepWorld(world, step), token, HistoryAfter(world, step, token, h),
                        BatchesAfter(world, step, token, h, b))
  {
    var later, rest := HistoryAfter(world, step, token, h), DueRequests(StepWorld(world, step), token);
    WriteEffect(world, step, token, h);
    assert SawBatch(world.requests[step.r], h, b);
    OpeningWriteFits(h, b, later, later.top, rest);
    OpeningWriteIsLate(h, b, later, world.requests[step.r].now, rest);
  }

  lemma LateOnesStay(world: World, step: Step, token: string, h: History, b: Batches)
    requires CanStep(world, step) && Written(world, step, token).Some? && step.r in b.waiting
    requires LateOnesSaw(world, token, h, b)
    ensures LateOnesSaw(StepWorld(world, step), token, HistoryAfter(world, step, token, h),
                        BatchesAfter(world, step, token, h, b))
  {
    var after, later := StepWorld(world, step), HistoryAfter(world, step, token, h);
    var c := BatchesAfter(world, step, token, h, b);
    forall r | r in after.requests && IsDue(after.requests[r], token) && r !in c.waiting
      ensures SawBatch(after.requests[r], later, c)
    {
      assert SawBatch(world.requests[r], h, b);
    }
  }

  // ---------- any other step ----------

  lemma PeakKeepsFit(h: History, b: Batches, after: History, waiting: set<nat>)
    requires BatchesFit(h, b) && waiting <= b.waiting
    requires after.peak >= h.peak && after.writes == h.writes
    ensures BatchesFit(after, b.(waiting := waiting))
  {
    FewerIsLess(waiting, b.waiting);
    if b.count > 0 {
      ProductGrows(b.count - 1, h.peak, after.peak);
      assert after.peak * b.count == (b.count - 1) * after.peak + after.peak;
      assert h.peak * b.count == (b.count - 1) * h.peak + h.peak;
    }
  }

  /// Only a lookup makes a request due, and it is counted then.
  lemma DueIsCounted(world: World, step: Step, token: string, h: History)
    requires CanStep(world, step) && Written(world, step, token).None?
    requires step.Create? ==> step.token != token
    requires |DueRequests(world, token)| <= h.peak
    ensures |DueRequests(StepWorld(world, step), token)| <= HistoryAfter(world, step, token, h).peak
    ensures DueRequests(StepWorld(world, step), token) - DueRequests(world, token) <=
            if step.LookUp? then {step.r} else {}
  {
    var due, rest := DueRequests(world, token), DueRequests(StepWorld(world, step), token);
    if !step.LookUp? {
      assert rest <= due;
      FewerIsLess(rest, due);
    } else if !IsDue(StepWorld(world, step).requests[step.r], token) {
      assert rest == due;
    }
  }

  /// What a step that does not write leaves of the history.
  lemma OtherKeepsHistory(world: World, step: Step, token: string, h: History)
    requires CanStep(world, step) && Written(world, step, token).None?
    requires step.Create? ==> step.token != token
    ensures var later := HistoryAfter(world, step, token, h);
            && later.created == h.created && later.top == h.top && later.slip == h.slip
            && later.writes == h.writes && later.peak >= h.peak
  {}

  lemma OtherKeepsLateOnes(world: World, step: Step, token: string, h: History, b: Batches, later: History,
                           waiting: set<nat>)
    requires CanStep(world, step) && Written(world, step, token).None?
    requires token in world.store.sessions && DeadlineBounds(world.store.sessions[token], h)
    requires b.start <= h.top && later.slip == h.slip
    requires waiting == b.waiting * DueRequests(StepWorld(world, step), token)
    requires LateOnesSaw(world, token, h, b)
    ensures LateOnesSaw(StepWorld(world, step), token, later, b.(waiting := waiting))
  {
    var after := StepWorld(world, step);
    forall r | r in after.requests && IsDue(after.requests[r], token) && r !in waiting
      ensures SawBatch(after.requests[r], later, b.(waiting := waiting))
    {
      assert r in DueRequests(after, token);
      assert r in world.requests && IsDue(world.requests[r], token) ==> SawBatch(world.requests[r], h, b);
    }
  }

  lemma OtherKeepsOpened(h: History, b: Batches, later: History, waiting: set<nat>)
    requires OpenedLate(h, b)
    requires later.created == h.created && later.top == h.top && later.slip == h.slip
    ensures OpenedLate(later, b.(waiting := waiting))
  {}

  lemma OtherKeepsBatches(world: World, step: Step, token: string, h: History, b: Batches)
    requires CanStep(world, step) && Written(world, step, token).None?
    requires step.Create? ==> step.token != token
    requires token in world.store.sessions && token in StepWorld(world, step).store.sessions
    requires DeadlineBounds(world.store.sessions[token], h) && BatchBounds(world, token, h, b)
    ensures BatchBounds(StepWorld(world, step), token, HistoryAfter(world, step, token, h),
                        BatchesAfter(world, step, token, h, b))
  {
    var later, waiting := HistoryAfter(world, step, token, h), b.waiting * DueRequests(StepWorld(world, step), token);
    OtherKeepsHistory(world, step, token, h);
    DueIsCounted(world, step, token, h);
    PeakKeepsFit(h, b, later, waiting);
    OtherKeepsLateOnes(world, step, token, h, b, later, waiting);
    OtherKeepsOpened(h, b, later, waiting);
    assert BatchesAfter(world, step, token, h, b) == b.(waiting := waiting);
  }

  lemma CreateStartsBatches(world: World, step: Step, token: string, h: History, b: Batches)
    requires CanStep(world, step) && step.Create? && step.token == token && IssuedOnce(world)
    ensures BatchBounds(StepWorld(world, step), token, HistoryAfter(world, step, token, h),
                        BatchesAfter(world, step, token, h, b))
  {
    assert DueRequests(StepWorld(world, step), token) == {};
  }

  lemma StepKeepsBatches(world: World, step: Step, token: string, h: History, b: Batches)
    requires CanStep(world, step) && SessionBounds(world, token, h) && BatchBounds(world, token, h, b)
    ensures BatchBounds(StepWorld(world, step), token, HistoryAfter(world, step, token, h),
                        BatchesAfter(world, step, token, h, b))
  {
    if step.Create? && step.token == token {
      CreateStartsBatches(world, step, token, h, b);
    } else if Written(world, step, token).Some? {
      if step.r in b.waiting {
        WaitingWriteKeepsBatches(world, step, token, h, b);
      } else {
        OpeningWriteKeepsBatches(world, step, token, h, b);
      }
    } else if token in StepWorld(world, step).store.sessions {
      OtherKeepsBatches(world, step, token, h, b);
    }
  }

  lemma {:induction false} BatchesHoldInEveryRun(steps: seq<Step>, token: string)
    requires RunWorld(steps).Some?
    ensures BatchBounds(RunWorld(steps).value, token, HistoryOf(steps, token), BatchesOf(steps, token))
  {
    if steps != [] {
      var front := steps[..|steps| - 1];
      BatchesHoldInEveryRun(front, token);
      BoundsHoldInEveryRun(front, token);
      StepKeepsBatches(RunWorld(front).value, steps[|steps| - 1], token, HistoryOf(front, token),
                       BatchesOf(front, token));
    }
  }

  lemma QuotientIsAtLeast(count: nat, span: int, gap: int)
    requires gap > 0 && count * gap <= span
    ensures count <= span / gap
  {
    if span / gap < count {
      ProductGrows(gap, span / gap + 1, count);
      assert false;
    }
  }

  /// At most as many writes an hour, less what writes slip, as requests were due at once.
  ghost predicate WritesFit(h: History) {
    h.slip < SESSION_RENEWAL_THRESHOLD_MS ==>
      h.writes <= h.peak * ((h.top - h.created - h.slip) / (SESSION_RENEWAL_THRESHOLD_MS - h.slip))
  }

  /// However many requests arrive and however they overlap, their writes fit the span from the creation
  /// to the latest lookup.
  lemma WritesAreAmortised(steps: seq<Step>, token: string)
    requires RunWorld(steps).Some? && token in RunWorld(steps).value.store.sessions
    ensures WritesFit(HistoryOf(steps, token)) && HistoryOf(steps, token).top <= HistoryOf(steps, token).latest
  {
    BoundsHoldInEveryRun(steps, token);
    BatchesHoldInEveryRun(steps, token);
    BatchesBoundWrites(HistoryOf(steps, token), BatchesOf(steps, token));
  }

  lemma BatchesBoundWrites(h: History, b: Batches)
    requires OpenedLate(h, b) && BatchesFit(h, b)
    ensures WritesFit(h)
  {
    if b.count > 0 && h.slip < SESSION_RENEWAL_THRESHOLD_MS {
      var gap := SESSION_RENEWAL_THRESHOLD_MS - h.slip;
      assert b.count * gap == (b.count - 1) * gap + gap;
      QuotientIsAtLeast(b.count, h.top - h.created - h.slip, gap);
      ProductGrows(h.peak, b.count, (h.top - h.created - h.slip) / gap);
    }
  }

  /// The writes that replaced the deadline their lookup saw move it by an hour each, on top of what
  /// other writes took back.
  ghost predicate CleanWritesFit(h: History) {
    h.clean <= (h.latest - h.created + h.lost) / SESSION_RENEWAL_THRESHOLD_MS
  }

  lemma CleanWritesAreAmortised(steps: seq<Step>, token: string)
    requires RunWorld(steps).Some? && token in RunWorld(steps).value.store.sessions
    ensures CleanWritesFit(HistoryOf(steps, token))
  {
    BoundsHoldInEveryRun(steps, token);
    BoundsLimitCleanWrites(RunWorld(steps).value.store.sessions[token], HistoryOf(steps, token));
  }

  lemma BoundsLimitCleanWrites(session: SessionRecord, h: History)
    requires DeadlineBounds(session, h)
    ensures CleanWritesFit(h)
  {
    QuotientIsAtLeast(h.clean, h.latest - h.created + h.lost, SESSION_RENEWAL_THRESHOLD_MS);
  }

  // ---------- runs in which no two requests are due at once ----------

  /// Every due request still sees the deadline its lookup saw, and no write has slipped or moved the
  /// deadline back.
  ghost predicate Alone(world: World, token: string, h: History) {
    token in world.store.sessions && h.peak <= 1 ==>
      && h.slip == 0 && h.lost == 0 && h.clean == h.writes
      && (forall r :: r in DueRequests(world, token) ==> world.requests[r].seen == world.store.sessions[token])
  }

  lemma OneIsAlone(all: set<nat>, r: nat)
    requires r in all && |all| <= 1
    ensures all == {r}
  {
    FewerIsLess(all - {r}, all);
    assert |all - {r}| == |all| - 1;
  }

  lemma WriteKeepsAlone(world: World, step: Step, token: string, h: History)
    requires CanStep(world, step) && Written(world, step, token).Some?
    requires SessionBounds(world, token, h) && Alone(world, token, h) && |DueRequests(world, token)| <= h.peak
    ensures Alone(StepWorld(world, step), token, HistoryAfter(world, step, token, h))
    ensures h.peak <= 1 ==>
              StepWorld(world, step).store.sessions[token].expiresAt
              >= world.store.sessions[token].expiresAt + SESSION_RENEWAL_THRESHOLD_MS
  {
    if h.peak <= 1 {
      assert PendingBounds(world.requests[step.r], h);
      OneIsAlone(DueRequests(world, token), step.r);
      assert DueRequests(StepWorld(world, step), token) == {};
    }
  }

  lemma OtherKeepsAlone(world: World, step: Step, token: string, h: History)
    requires CanStep(world, step) && Written(world, step, token).None?
    requires IssuedOnce(world) && Alone(world, token, h) && |DueRequests(world, token)| <= h.peak
    ensures Alone(StepWorld(world, step), token, HistoryAfter(world, step, token, h))
  {
    var after := StepWorld(world, step);
    if step.Create? && step.token == token {
      assert DueRequests(after, token) == {};
    } else if token in after.store.sessions && HistoryAfter(world, step, token, h).peak <= 1 {
      DueIsCounted(world, step, token, h);
    }
  }

  lemma {:induction false} AloneInEveryRun(steps: seq<Step>, token: string)
    requires RunWorld(steps).Some?
    ensures Alone(RunWorld(steps).value, token, HistoryOf(steps, token))
  {
    if steps != [] {
      var front := steps[..|steps| - 1];
      AloneInEveryRun(front, token);
      BoundsHoldInEveryRun(front, token);
      BatchesHoldInEveryRun(front, token);
      StepKeepsAlone(RunWorld(front).value, steps[|steps| - 1], token, HistoryOf(front, token));
    }
  }

  lemma StepKeepsAlone(world: World, step: Step, token: string, h: History)
    requires CanStep(world, step) && SessionBounds(world, token, h) && Alone(world, token, h)
    requires token in world.store.sessions ==> |DueRequests(world, token)| <= h.peak
    ensures Alone(StepWorld(world, step), token, HistoryAfter(world, step, token, h))
  {
    if Written(world, step, token).Some? {
      WriteKeepsAlone(world, step, token, h);
    } else if token in world.store.sessions {
      OtherKeepsAlone(world, step, token, h);
    } else if step.Create? && step.token == token {
      assert DueRequests(StepWorld(world, step), token) == {};
    }
  }

  /// What holds of a session whose requests never overlap on the way to a write: an hour of use for
  /// every write, and a deadline seven days less an hour ahead of every answer.
  ghost predicate SequentialBounds(session: SessionRecord, h: History) {
    && h.writes <= (h.latest - h.created) / SESSION_RENEWAL_THRESHOLD_MS
    && session.expiresAt == h.top + SESSION_LIFETIME_MS
    && session.expiresAt > h.answered + SESSION_LIFETIME_MS - SESSION_RENEWAL_THRESHOLD_MS
  }

  lemma SequentialRunsAreBounded(steps: seq<Step>, token: string)
    requires RunWorld(steps).Some? && token in RunWorld(steps).value.store.sessions
    requires HistoryOf(steps, token).peak <= 1
    ensures SequentialBounds(RunWorld(steps).value.store.sessions[token], HistoryOf(steps, token))
  {
    AloneInEveryRun(steps, token);
    BoundsHoldInEveryRun(steps, token);
    AloneIsSequential(RunWorld(steps).value.store.sessions[token], HistoryOf(steps, token));
  }

  lemma AloneIsSequential(session: SessionRecord, h: History)
    requires DeadlineBounds(session, h) && h.slip == h.lost == 0 && h.clean == h.writes
    ensures SequentialBounds(session, h)
  {
    BoundsLimitCleanWrites(session, h);
  }

  /// In such runs no step moves the deadline back, and one that moves it moves it an hour or more.
  lemma SequentialDeadlineNeverMovesBack(steps: seq<Step>, step: Step, token: string)
    requires RunWorld(steps).Some? && CanStep(RunWorld(steps).value, step)
    requires token in RunWorld(steps).value.store.sessions
    requires token in StepWorld(RunWorld(steps).value, step).store.sessions
    requires HistoryOf(steps, token).peak <= 1
    ensures var before := RunWorld(steps).value.store.sessions[token].expiresAt;
            var after := StepWorld(RunWorld(steps).value, step).store.sessions[token].expiresAt;
            after == before || after >= before + SESSION_RENEWAL_THRESHOLD_MS
  {
    var world, h := RunWorld(steps).value, HistoryOf(steps, token);
    BoundsHoldInEveryRun(steps, token);
    AloneInEveryRun(steps, token);
    BatchesHoldInEveryRun(steps, token);
    if Written(world, step, token).Some? {
      WriteKeepsAlone(world, step, token, h);
    } else {
      StepWritesDeadline(world, step, token);
    }
  }

  // ---------- two requests that overlap ----------

  lemma OneStepFurther(steps: seq<Step>, step: Step, token: string)
    requires RunWorld(steps).Some? && CanStep(RunWorld(steps).value, step)
    ensures RunWorld(steps + [step]) == Some(StepWorld(RunWorld(steps).value, step))
    ensures HistoryOf(steps + [step], token)
         == HistoryAfter(RunWorld(steps).value, step, token, HistoryOf(steps, token))
  {
    assert (steps + [step])[..|steps|] == steps;
  }

  function Row(userId: Id, created: int): SessionRecord {
    SessionRecord(userId, created, created + SESSION_LIFETIME_MS)
  }

  /// One session of one account, with these requests.
  function OneSession(token: string, userId: Id, row: SessionRecord, requests: map<nat, Phase>): World {
    World(Store(map[token := row], map[userId := false]), requests, {token})
  }

  lemma CreatedWorld(token: string, userId: Id, created: int)
    ensures var account := World(Store(map[], map[userId := false]), map[], {});
            && StepWorld(START, SetAccount(userId, false)) == account
            && StepWorld(account, Create(token, userId, created))
               == OneSession(token, userId, Row(userId, created), map[])
  {
    var sessions: map<string, SessionRecord> := map[];
    assert sessions[token := Row(userId, created)] == map[token := Row(userId, created)];
    assert {} + {token} == {token};
  }

  lemma CreatedRun(token: string, userId: Id, created: int) returns (steps: seq<Step>)
    ensures RunWorld(steps) == Some(OneSession(token, userId, Row(userId, created), map[]))
    ensures HistoryOf(steps, token) == History(created, created, created, created, 0, 0, 0, 0, 0)
  {
    CreatedWorld(token, userId, created);
    OneStepFurther([], SetAccount(userId, false), token);
    var account := [] + [SetAccount(userId, false)];
    OneStepFurther(account, Create(token, userId, created), token);
    steps := account + [Create(token, userId, created)];
  }

  lemma OneFoundRun(token: string, userId: Id, created: int) returns (steps: seq<Step>)
    ensures var row, first := Row(userId, created), created + SESSION_RENEWAL_THRESHOLD_MS;
            RunWorld(steps) == Some(OneSession(token, userId, row, map[0 := Found(token, row, first)]))
    ensures HistoryOf(steps, token)
         == History(created, created, created + SESSION_RENEWAL_THRESHOLD_MS, created, 0, 0, 0, 1, 0)
  {
    var row, first := Row(userId, created), created + SESSION_RENEWAL_THRESHOLD_MS;
    var begun := CreatedRun(token, userId, created);
    OneStepFurther(begun, LookUp(0, token, first), token);
    steps := begun + [LookUp(0, token, first)];
    assert DueRequests(OneSession(token, userId, row, map[0 := Found(token, row, first)]), token) == {0};
  }

  /// Both requests look the session up before either goes on.
  lemma TwoFoundRun(token: string, userId: Id, created: int, gap: nat) returns (steps: seq<Step>)
    requires gap < SESSION_RENEWAL_THRESHOLD_MS
    ensures var row, first := Row(userId, created), created + SESSION_RENEWAL_THRESHOLD_MS;
            RunWorld(steps) == Some(OneSession(token, userId, row, map[0 := Found(token, row, first),
                                                                       1 := Found(token, row, first + gap)]))
    ensures HistoryOf(steps, token)
         == History(created, created, created + SESSION_RENEWAL_THRESHOLD_MS + gap, created, 0, 0, 0, 2, 0)
  {
    var row, first := Row(userId, created), created + SESSION_RENEWAL_THRESHOLD_MS;
    var one := OneFoundRun(token, userId, created);
    OneStepFurther(one, LookUp(1, token, first + gap), token);
    steps := one + [LookUp(1, token, first + gap)];
    var requests := map[0 := Found(token, row, first), 1 := Found(token, row, first + gap)];
    assert map[0 := Found(token, row, first)][1 := Found(token, row, first + gap)] == requests;
    BothAreDue(token, userId, created, gap);
  }

  lemma BothAreDue(token: string, userId: Id, created: int, gap: nat)
    ensures var row, first := Row(userId, created), created + SESSION_RENEWAL_THRESHOLD_MS;
            var requests := map[0 := Found(token, row, first), 1 := Found(token, row, first + gap)];
            && DueRequests(OneSession(token, userId, row, requests), token) == {0, 1}
            && |DueRequests(OneSession(token, userId, row, requests), token)| == 2
  {
    var row, first := Row(userId, created), created + SESSION_RENEWAL_THRESHOLD_MS;
    var requests := map[0 := Found(token, row, first), 1 := Found(token, row, first + gap)];
    var due := DueRequests(OneSession(token, userId, row, requests), token);
    assert IsDue(requests[0], token) && IsDue(requests[1], token);
    assert due == {0, 1};
  }

  lemma OneCheckedRun(token: string, userId: Id, created: int, gap: nat) returns (steps: seq<Step>)
    requires gap < SESSION_RENEWAL_THRESHOLD_MS
    ensures var row, first := Row(userId, created), created + SESSION_RENEWAL_THRESHOLD_MS;
            RunWorld(steps) == Some(OneSession(token, userId, row, map[0 := Extending(token, row, first),
                                                                       1 := Found(token, row, first + gap)]))
    ensures HistoryOf(steps, token)
         == History(created, created, created + SESSION_RENEWAL_THRESHOLD_MS + gap, created, 0, 0, 0, 2, 0)
  {
    var row, first := Row(userId, created), created + SESSION_RENEWAL_THRESHOLD_MS;
    var found := TwoFoundRun(token, userId, created, gap);
    OneStepFurther(found, CheckUser(0), token);
    steps := found + [CheckUser(0)];
    assert map[0 := Found(token, row, first), 1 := Found(token, row, first + gap)][0 := Extending(token, row, first)]
        == map[0 := Extending(token, row, first), 1 := Found(token, row, first + gap)];
  }

  lemma TwoDueRun(token: string, userId: Id, created: int, gap: nat) returns (steps: seq<Step>)
    requires gap < SESSION_RENEWAL_THRESHOLD_MS
    ensures var row, first := Row(userId, created), created + SESSION_RENEWAL_THRESHOLD_MS;
            RunWorld(steps) == Some(OneSession(token, userId, row, map[0 := Extending(token, row, first),
                                                                       1 := Extending(token, row, first + gap)]))
    ensures HistoryOf(steps, token)
         == History(created, created, created + SESSION_RENEWAL_THRESHOLD_MS + gap, created, 0, 0, 0, 2, 0)
  {
    var row, first := Row(userId, created), created + SESSION_RENEWAL_THRESHOLD_MS;
    var one := OneCheckedRun(token, userId, created, gap);
    OneStepFurther(one, CheckUser(1), token);
    steps := one + [CheckUser(1)];
    assert map[0 := Extending(token, row, first), 1 := Found(token, row, first + gap)]
             [1 := Extending(token, row, first + gap)]
        == map[0 := Extending(token, row, first), 1 := Extending(token, row, first + gap)];
  }

  /// The request with the later reading writes.
  lemma LaterWrittenRun(token: string, userId: Id, created: int, gap: nat) returns (steps: seq<Step>)
    requires gap < SESSION_RENEWAL_THRESHOLD_MS
    ensures RunWorld(steps).Some?
    ensures var world, first := RunWorld(steps).value, created + SESSION_RENEWAL_THRESHOLD_MS;
            && token in world.store.sessions
            && world.store.sessions[token].expiresAt == first + gap + SESSION_LIFETIME_MS
            && 0 in world.requests && world.requests[0] == Extending(token, Row(userId, created), first)
    ensures var top := created + SESSION_RENEWAL_THRESHOLD_MS + gap;
            HistoryOf(steps, token) == History(created, top, top, top, 1, 1, 0, 2, 0)
  {
    var due := TwoDueRun(token, userId, created, gap);
    OneStepFurther(due, Extend(1), token);
    steps := due + [Extend(1)];
  }

  /// A step that moves the deadline of a session back.
  ghost predicate MovesBack(world: World, step: Step, token: string, gap: nat)
    requires CanStep(world, step)
  {
    && token in world.store.sessions && token in StepWorld(world, step).store.sessions
    && StepWorld(world, step).store.sessions[token].expiresAt == world.store.sessions[token].expiresAt - gap
  }

  /// Two writes where one hour and a bit was used, as many as the bound allows.
  predicate TwoWrites(h: History, created: int, gap: nat) {
    && h.created == created && h.latest == created + SESSION_RENEWAL_THRESHOLD_MS + gap
    && h.writes == 2 && (h.latest - h.created) / SESSION_RENEWAL_THRESHOLD_MS == 1
    && h.slip < SESSION_RENEWAL_THRESHOLD_MS
    && h.writes == h.peak * ((h.top - h.created - h.slip) / (SESSION_RENEWAL_THRESHOLD_MS - h.slip))
  }

  lemma TwoWritesFit(created: int, gap: nat)
    requires 2 * gap < SESSION_RENEWAL_THRESHOLD_MS
    ensures var top := created + SESSION_RENEWAL_THRESHOLD_MS + gap;
            TwoWrites(History(created, top, top, top, 2, 1, gap, 2, gap), created, gap)
  {
    assert SESSION_RENEWAL_THRESHOLD_MS / (SESSION_RENEWAL_THRESHOLD_MS - gap) == 1;
  }

  lemma EarlierWriteMovesBack(world: World, token: string, row: SessionRecord, created: int, gap: nat)
    requires 0 in world.requests
    requires world.requests[0] == Extending(token, row, created + SESSION_RENEWAL_THRESHOLD_MS)
    requires row.expiresAt == created + SESSION_LIFETIME_MS && gap < SESSION_RENEWAL_THRESHOLD_MS
    requires token in world.store.sessions
    requires world.store.sessions[token].expiresAt
          == created + SESSION_RENEWAL_THRESHOLD_MS + gap + SESSION_LIFETIME_MS
    ensures MovesBack(world, Extend(0), token, gap)
    ensures var top := created + SESSION_RENEWAL_THRESHOLD_MS + gap;
            HistoryAfter(world, Extend(0), token, History(created, top, top, top, 1, 1, 0, 2, 0))
            == History(created, top, top, top, 2, 1, gap, 2, gap)
  {}

  /// Two requests of any session, less than half an hour apart and the first an hour after the session was
  /// created, can write twice, and the second write moves the deadline back.
  lemma TwoRequestsWriteTwice(token: string, userId: Id, created: int, gap: nat)
    requires 0 < gap && 2 * gap < SESSION_RENEWAL_THRESHOLD_MS
    ensures exists steps :: RunWorld(steps).Some? && CanStep(RunWorld(steps).value, Extend(0))
                            && MovesBack(RunWorld(steps).value, Extend(0), token, gap)
                            && TwoWrites(HistoryOf(steps + [Extend(0)], token), created, gap)
  {
    var steps := LaterWrittenRun(token, userId, created, gap);
    OneStepFurther(steps, Extend(0), token);
    EarlierWriteMovesBack(RunWorld(steps).value, token, Row(userId, created), created, gap);
    TwoWritesFit(created, gap);
  }
}
