/**
  The power policy against what it has been told: in every run from a fresh
  policy, each tick locks, suspends or shuts down exactly when the history of
  events says so. The history knows no deadlines, only when things began and
  which delays have to pass.
 */
module PowerHistory {
  import opened Options
  import opened PowerPolicy
  import opened PowerSafety

  // Something not to be done before delay milliseconds after at.
  datatype Guard = Guard(at: int, delay: int)

  datatype Phase = InUse | Waiting | Preparing

  datatype History = History(
    phase: Phase,
    activeSince: int,            // last activity, unlock or unplugging
    offlineSince: Option<int>,   // start of uninterrupted known battery power
    countingSince: int,          // the lock, or the last wake, failed restore or unplugging after it
    suspendGuards: seq<Guard>,
    shutdownGuards: seq<Guard>,
    idle: int, suspend: int, shutdown: int,
    onLock: bool,                // suspend without delay was asked for
    disabled: bool,              // suspend was unavailable or broke the device
    waking: bool)                // the key that woke the device is still held

  function Told(start: int): History {
    History(InUse, start, None, -1, [], [], 300_000, 20_000, 0, false, false, false)
  }

  predicate Passed(guards: seq<Guard>, now: int) {
    forall i :: 0 <= i < |guards| ==> Apart(guards[i].at, guards[i].delay, now)
  }

  // What a tick at now has to do.
  function Called(h: History, now: int): Action {
    if h.offlineSince.None? then NoAction
    else if h.phase == Waiting && h.shutdown > 0 then
      if Apart(h.countingSince, h.shutdown, now) && Apart(h.offlineSince.value, 20_000, now) && Passed(h.shutdownGuards, now)
      then Shutdown else NoAction
    else if h.phase == Waiting then
      if !h.disabled && (h.suspend > 0 || h.onLock) && Apart(h.countingSince, h.suspend, now) &&
         Apart(h.offlineSince.value, 20_000, now) && Passed(h.suspendGuards, now)
      then Suspend else NoAction
    else if h.phase == InUse && h.idle > 0 && Apart(h.activeSince, h.idle, now) then EnterLock
    else NoAction
  }

  function Locking(h: History, now: int): History {
    h.(phase := Waiting, countingSince := now, suspendGuards := [], shutdownGuards := [])
  }

  function NotNegative(x: int): int {
    if x < 0 then 0 else x
  }

  // What an event adds to the history.
  function Learn(h: History, e: Event, now: int): History {
    match e
    case NoteActivity => if h.phase == InUse then h.(activeSince := now) else h
    case SetPower(known, online) =>
      if !known || online then h.(offlineSince := None)
      else if h.offlineSince.Some? then h
      else
        var unplugged := h.(offlineSince := Some(now), activeSince := now);
        if h.phase == InUse then unplugged
        else unplugged.(countingSince := now, suspendGuards := h.suspendGuards + [Guard(now, h.idle)])
    case Configure(idle, suspend, shutdown) =>
      h.(idle := NotNegative(idle), suspend := NotNegative(suspend), shutdown := NotNegative(shutdown), onLock := false)
    case SetSuspendOnLock(on) => h.(onLock := on)
    case Tick =>
      (match Called(h, now)
       case NoAction => h
       case EnterLock => Locking(h, now)
       case Suspend => h.(phase := Preparing)
       case Shutdown => h.(shutdownGuards := [Guard(now, 60_000)]))
    case Lock => if h.phase == InUse then Locking(h, now) else h
    case Unlock => if h.phase == Waiting then h.(phase := InUse, activeSince := now, waking := false) else h
    case ShutdownGaveUp => h.(shutdownGuards := [Guard(now, 60_000)])
    case SuspendGaveUp => h.(phase := Waiting, suspendGuards := h.suspendGuards + [Guard(now, 60_000)])
    case SuspendWithdrawn => h.(phase := Waiting, suspendGuards := [])
    case SuspendMissing => h.(phase := Waiting, suspendGuards := [], disabled := true)
    case RestoreGaveUp =>
      h.(phase := Waiting, countingSince := now, suspendGuards := [], disabled := true, waking := true)
    case Wake =>
      h.(phase := Waiting, countingSince := now, disabled := false, waking := true,
         suspendGuards := if h.onLock then h.suspendGuards + [Guard(now, 20_000)] else h.suspendGuards)
    case PowerKey(pressed) => if pressed then h else h.(waking := false)
  }

  // What an event is answered.
  function Reply(h: History, e: Event, now: int): Output {
    match e
    case Tick => Did(Called(h, now))
    case Lock => Answer(h.phase == InUse)
    case Unlock => Answer(h.phase == Waiting)
    case PowerKey(pressed) => Answer(h.waking)
    case _ => Silent
  }

  // Every answer of a run is the one its history calls for.
  predicate Follows(p: Policy, h: History, last: int, run: seq<Timed>)
    decreases |run|
  {
    if run == [] then true
    else
      var e, now := run[0].event, run[0].at;
      last <= now <= MAX_TIME && Allowed(p, e) ==>
        Step(p, e, now).1 == Reply(h, e, now) && Follows(Step(p, e, now).0, Learn(h, e, now), now, run[1..])
  }

  // ---- How the fields hold the history ----

  // The time a list of guards ends, -1 for none.
  function Latest(guards: seq<Guard>): int {
    if guards == [] then -1
    else
      var last := guards[|guards| - 1];
      Later(Latest(guards[..|guards| - 1]), DeadlineAfter(last.at, last.delay))
  }

  predicate Sane(guards: seq<Guard>, last: int) {
    forall i :: 0 <= i < |guards| ==> 0 <= guards[i].at <= last && Time(guards[i].delay)
  }

  predicate Matches(p: Policy, h: History, last: int) {
    && Time(last) && Time(p.idle) && Time(p.suspend) && Time(p.shutdown)
    && p.idle == h.idle && p.suspend == h.suspend && p.shutdown == h.shutdown
    && p.mode == (if h.phase == InUse then Active else if h.phase == Waiting then Locked else SuspendPrepare)
    && (h.phase == InUse ==> p.lastActivityAt == h.activeSince) && 0 <= h.activeSince <= last
    && (h.offlineSince.Some? <==> p.known && !p.online)
    && (h.offlineSince.Some? ==> 0 <= p.offlineAt == h.offlineSince.value <= last)
    && (h.phase != InUse ==> 0 <= p.lockedAt == h.countingSince <= last)
    && (h.phase != InUse ==> Sane(h.suspendGuards, last) && Sane(h.shutdownGuards, last))
    && (h.phase != InUse ==> p.suspendRetryAt == Latest(h.suspendGuards) && p.shutdownRetryAt == Latest(h.shutdownGuards))
    && p.suspendOnLock == h.onLock && p.suspendDisabled == h.disabled && p.suppressWakeup == h.waking
  }

  lemma {:induction false} LatestPassed(guards: seq<Guard>, last: int, now: int)
    requires Sane(guards, last) && 0 <= now <= MAX_TIME
    ensures now >= Latest(guards) <==> Passed(guards, now)
    ensures -1 <= Latest(guards) <= MAX_TIME || last > MAX_TIME
  {
    if guards != [] {
      var rest, g := guards[..|guards| - 1], guards[|guards| - 1];
      LatestPassed(rest, last, now);
      DeadlinePassed(g.at, g.delay, now);
      assert guards == rest + [g];
      assert Passed(guards, now) <==> Passed(rest, now) && Apart(g.at, g.delay, now);
      hide Apart;
    }
  }

  lemma {:induction false} LatestMore(guards: seq<Guard>, g: Guard)
    ensures Latest(guards + [g]) == Later(Latest(guards), DeadlineAfter(g.at, g.delay))
  {
    assert (guards + [g])[..|guards|] == guards;
  }

  lemma {:induction false} LatestOne(g: Guard)
    requires 0 <= g.at && Time(g.delay)
    ensures Latest([g]) == DeadlineAfter(g.at, g.delay) && Latest([]) == -1
  {
    assert [g][..0] == [];
  }

  // ---- Exactly when tick acts ----

  // In terms of the fields: a suspend, and a lock.
  lemma {:induction false} SuspendExactly(p: Policy, now: int)
    requires WellTyped(p) && Time(now)
    ensures Ticked(p, now).1 == Suspend <==>
            && p.mode == Locked && !p.suspendDisabled && (p.suspend > 0 || p.suspendOnLock) && p.shutdown == 0
            && p.known && !p.online && p.offlineAt >= 0
            && now >= p.suspendRetryAt
            && Apart(p.lockedAt, p.suspend, now) && Apart(p.offlineAt, 20_000, now)
  {
    DeadlinePassed(p.lockedAt, p.suspend, now);
    DeadlinePassed(p.offlineAt, 20_000, now);
    hide DeadlineAfter, Apart;
  }

  lemma {:induction false} LockExactly(p: Policy, now: int)
    requires WellTyped(p) && Time(now)
    ensures Ticked(p, now).1 == EnterLock <==>
            p.mode == Active && p.idle > 0 && p.known && !p.online && Apart(p.lastActivityAt, p.idle, now)
  {
    DeadlinePassed(p.lastActivityAt, p.idle, now);
    hide DeadlineAfter, Apart;
  }

  lemma {:induction false} TickIsCalled(p: Policy, h: History, last: int, now: int)
    requires Matches(p, h, last) && last <= now <= MAX_TIME
    ensures Ticked(p, now).1 == Called(h, now)
  {
    DeadlinePassed(p.lastActivityAt, p.idle, now);
    DeadlinePassed(p.lockedAt, p.shutdown, now);
    DeadlinePassed(p.lockedAt, p.suspend, now);
    DeadlinePassed(p.offlineAt, 20_000, now);
    if h.phase != InUse {
      LatestPassed(h.suspendGuards, last, now);
      LatestPassed(h.shutdownGuards, last, now);
    }
    hide DeadlineAfter, Apart, Latest, Passed, Sane;
  }

  // ---- Every event keeps the match ----

  lemma {:induction false} TickMatches(p: Policy, h: History, last: int, now: int)
    requires Matches(p, h, last) && last <= now <= MAX_TIME
    ensures Matches(Ticked(p, now).0, Learn(h, Tick, now), now)
  {
    TickIsCalled(p, h, last, now);
    TickedCases(p, now);
    LatestOne(Guard(now, 60_000));
    hide Called, Ticked, Latest, DeadlineAfter;
  }

  // Guards stay sane later on, and with one more put up now.
  lemma {:induction false} GuardsKept(h: History, last: int, now: int)
    requires last <= now <= MAX_TIME
    ensures Sane(h.suspendGuards, last) ==> Sane(h.suspendGuards, now)
    ensures Sane(h.shutdownGuards, last) ==> Sane(h.shutdownGuards, now)
    ensures Sane([], now)
    ensures forall delay :: Sane(h.suspendGuards, last) && Time(delay) && 0 <= now ==>
              Sane(h.suspendGuards + [Guard(now, delay)], now) && Sane([Guard(now, delay)], now)
  {
  }

  lemma {:induction false} PowerMatches(p: Policy, h: History, last: int, e: Event, now: int)
    requires Matches(p, h, last) && last <= now <= MAX_TIME && e.SetPower?
    ensures Matches(Step(p, e, now).0, Learn(h, e, now), now)
  {
    hide *;
    if h.phase == InUse {
      PowerInUse(p, h, last, e, now);
    } else {
      PowerWhileLocked(p, h, last, e, now);
    }
  }

  lemma {:induction false} PowerInUse(p: Policy, h: History, last: int, e: Event, now: int)
    requires Matches(p, h, last) && last <= now <= MAX_TIME && e.SetPower? && h.phase == InUse
    ensures Matches(Step(p, e, now).0, Learn(h, e, now), now)
  {
    hide Latest, DeadlineAfter, Sane, Later;
  }

  lemma {:induction false} PowerWhileLocked(p: Policy, h: History, last: int, e: Event, now: int)
    requires Matches(p, h, last) && last <= now <= MAX_TIME && e.SetPower? && h.phase != InUse
    ensures Matches(Step(p, e, now).0, Learn(h, e, now), now)
  {
    hide Latest, DeadlineAfter, Sane, Later;
    LatestMore(h.suspendGuards, Guard(now, h.idle));
    GuardsKept(h, last, now);
  }

  lemma {:induction false} LockMatches(p: Policy, h: History, last: int, e: Event, now: int)
    requires Matches(p, h, last) && last <= now <= MAX_TIME && (e.Lock? || e.Unlock? || e.ShutdownGaveUp? || e.NoteActivity?)
    ensures Matches(Step(p, e, now).0, Learn(h, e, now), now)
  {
    LatestOne(Guard(now, 60_000));
    hide Latest, DeadlineAfter;
  }

  lemma {:induction false} OutcomeMatches(p: Policy, h: History, last: int, e: Event, now: int)
    requires Matches(p, h, last) && last <= now <= MAX_TIME && Allowed(p, e)
    requires e.SuspendGaveUp? || e.SuspendWithdrawn? || e.SuspendMissing? || e.RestoreGaveUp? || e.Wake?
    ensures Matches(Step(p, e, now).0, Learn(h, e, now), now)
  {
    hide Latest, DeadlineAfter, Sane;
    LatestOne(Guard(now, 60_000));
    LatestMore(h.suspendGuards, Guard(now, 60_000));
    LatestMore(h.suspendGuards, Guard(now, 20_000));
    GuardsKept(h, last, now);
  }

  lemma {:induction false} SettingMatches(p: Policy, h: History, last: int, e: Event, now: int)
    requires Matches(p, h, last) && last <= now <= MAX_TIME && Allowed(p, e)
    requires e.Configure? || e.SetSuspendOnLock? || e.PowerKey?
    ensures Matches(Step(p, e, now).0, Learn(h, e, now), now)
  {
    hide Latest, DeadlineAfter;
  }

  lemma {:induction false} StepMatches(p: Policy, h: History, last: int, e: Event, now: int)
    requires Matches(p, h, last) && last <= now <= MAX_TIME && Allowed(p, e)
    ensures Matches(Step(p, e, now).0, Learn(h, e, now), now) && Step(p, e, now).1 == Reply(h, e, now)
  {
    StepAnswers(p, h, last, e, now);
    hide *;
    match e
    case SetPower(_, _) => PowerMatches(p, h, last, e, now);
    case Tick => TickMatches(p, h, last, now); TickIs(p, now);
    case Configure(_, _, _) => SettingMatches(p, h, last, e, now);
    case SetSuspendOnLock(_) => SettingMatches(p, h, last, e, now);
    case PowerKey(_) => SettingMatches(p, h, last, e, now);
    case Lock => LockMatches(p, h, last, e, now);
    case Unlock => LockMatches(p, h, last, e, now);
    case ShutdownGaveUp => LockMatches(p, h, last, e, now);
    case NoteActivity => LockMatches(p, h, last, e, now);
    case _ => OutcomeMatches(p, h, last, e, now);
  }

  lemma {:induction false} TickIs(p: Policy, now: int)
    ensures Step(p, Tick, now).0 == Ticked(p, now).0
  {
  }

  lemma {:induction false} StepAnswers(p: Policy, h: History, last: int, e: Event, now: int)
    requires Matches(p, h, last) && last <= now <= MAX_TIME
    ensures Step(p, e, now).1 == Reply(h, e, now)
  {
    if e.Tick? {
      TickIsCalled(p, h, last, now);
    }
    hide Called, Ticked, Latest, DeadlineAfter;
  }

  lemma {:induction false} RunFollows(p: Policy, h: History, last: int, run: seq<Timed>)
    requires Matches(p, h, last)
    ensures Follows(p, h, last, run)
    decreases |run|
  {
    hide Matches, Step, Learn, Reply, Allowed;
    if run != [] {
      var e, now := run[0].event, run[0].at;
      if last <= now <= MAX_TIME && Allowed(p, e) {
        StepMatches(p, h, last, e, now);
        RunFollows(Step(p, e, now).0, Learn(h, e, now), now, run[1..]);
      }
    }
  }

  // In every run from a fresh policy every answer, and every action of a tick, is the one the history calls for.
  lemma {:induction false} RunsFollowHistory(start: int, run: seq<Timed>)
    requires Time(start)
    ensures Follows(Initial(start), Told(start), start, run)
  {
    RunFollows(Initial(start), Told(start), start, run);
  }
}
