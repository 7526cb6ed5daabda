/**
  What the power policy promises: its two halves, tick and timeout, agree
  exactly, and over every run the automatic actions keep their distances.
 */
module PowerSafety {
  import opened Options
  import opened PowerPolicy

  // ---- tick and timeout ----

  predicate Acts(p: Policy, now: int) {
    Ticked(p, now).1 != NoAction
  }

  // The first moment tick acts, if it ever does.
  function FirstActAt(p: Policy): Option<int> {
    Earlier(Earlier(LockDeadline(p), ShutdownDeadline(p)), SuspendDeadline(p))
  }

  function Earlier(a: Option<int>, b: Option<int>): Option<int> {
    if a.None? then b else if b.None? || a.value <= b.value then a else b
  }

  lemma {:induction false} ActsFromFirst(p: Policy, now: int)
    ensures Acts(p, now) <==> FirstActAt(p).Some? && now >= FirstActAt(p).value
    ensures !Acts(p, now) ==> Ticked(p, now).0 == p
  {
    hide DeadlineAfter;
  }

  lemma {:induction false} TimeoutIsDistance(p: Policy, now: int)
    ensures Timeout(p, now) == if FirstActAt(p).None? then -1 else TimeoutUntil(FirstActAt(p).value, now)
  {
    hide LockDeadline, ShutdownDeadline, SuspendDeadline;
  }

  // A timeout of 0 is a tick that acts now; a positive one is quiet time and, unless cut to the int range, ends
  // with an action; a negative one is quiet for good.
  lemma {:induction false} TimeoutAgreesWithTick(p: Policy, now: int)
    requires WellTyped(p) && Time(now)
    ensures Timeout(p, now) == 0 <==> Acts(p, now)
    ensures forall t :: now <= t < now + Timeout(p, now) ==> !Acts(p, t)
    ensures 0 <= Timeout(p, now) < MAX_INT ==> now + Timeout(p, now) <= MAX_TIME && Acts(p, now + Timeout(p, now))
    ensures Timeout(p, now) < 0 <==> forall t :: Time(t) ==> !Acts(p, t)
    ensures -1 <= Timeout(p, now) <= MAX_INT
  {
    DeadlinesAreTimes(p);
    TimeoutIsDistance(p, now);
    hide Acts, Timeout, FirstActAt;
    ActsFromFirst(p, MAX_TIME);
    forall t ensures Acts(p, t) <==> FirstActAt(p).Some? && t >= FirstActAt(p).value {
      ActsFromFirst(p, t);
    }
  }

  lemma {:induction false} DeadlinesAreTimes(p: Policy)
    requires WellTyped(p)
    ensures FirstActAt(p).Some? ==> FirstActAt(p).value <= MAX_TIME
  {
  }

  // ---- Runs ----

  datatype Event =
    | NoteActivity
    | SetPower(known: bool, online: bool)
    | Configure(idle: int, suspend: int, shutdown: int)
    | SetSuspendOnLock(on: bool)
    | Tick
    | Lock
    | Unlock
    | ShutdownGaveUp
    | SuspendGaveUp
    | SuspendWithdrawn
    | SuspendMissing
    | RestoreGaveUp
    | Wake
    | PowerKey(pressed: bool)

  datatype Output = Silent | Did(action: Action) | Answer(yes: bool)

  function Step(p: Policy, e: Event, now: int): (Policy, Output) {
    match e
    case NoteActivity => (ActivityNoted(p, now), Silent)
    case SetPower(known, online) => (PowerSet(p, known, online, now), Silent)
    case Configure(idle, suspend, shutdown) => (Configured(p, idle, suspend, shutdown), Silent)
    case SetSuspendOnLock(on) => (p.(suspendOnLock := on), Silent)
    case Tick => (Ticked(p, now).0, Did(Ticked(p, now).1))
    case Lock => (LockedAt(p, now), Answer(p.mode == Active))
    case Unlock => (UnlockedAt(p, now), Answer(p.mode == Locked))
    case ShutdownGaveUp => (ShutdownFailed(p, now), Silent)
    case SuspendGaveUp => (SuspendFailed(p, now), Silent)
    case SuspendWithdrawn => (SuspendCancelled(p), Silent)
    case SuspendMissing => (SuspendUnavailable(p), Silent)
    case RestoreGaveUp => (RestoreFailed(p, now), Silent)
    case Wake => (Resumed(p, now), Silent)
    case PowerKey(pressed) => (WakeupFiltered(p, pressed).0, Answer(WakeupFiltered(p, pressed).1))
  }

  // The outcome of a suspend attempt is reported once, after tick asked for it.
  predicate Allowed(p: Policy, e: Event) {
    match e
    case SuspendGaveUp => p.mode == SuspendPrepare
    case SuspendWithdrawn => p.mode == SuspendPrepare
    case SuspendMissing => p.mode == SuspendPrepare
    case RestoreGaveUp => p.mode == SuspendPrepare
    case Wake => p.mode == SuspendPrepare
    case Configure(idle, suspend, shutdown) => idle <= MAX_TIME && suspend <= MAX_TIME && shutdown <= MAX_TIME
    case _ => true
  }

  // How the last suspend attempt of a locked period ended.
  datatype Attempt = Fresh | Failed(at: int) | Woke(at: int, grace: bool)

  // What an observer of events and answers knows.
  datatype Seen = Seen(
    now: int,
    activeSince: int,            // last activity, unlock or unplugging
    offlineSince: Option<int>,   // start of uninterrupted known battery power
    lockedSince: Option<int>,
    lastShutdown: Option<int>,   // in this locked period
    attempt: Attempt,
    onLock: bool,                // suspend without delay was asked for
    noSuspend: bool)             // suspend was unavailable or broke the device

  function Observe(s: Seen, e: Event, now: int, out: Output): Seen {
    var s := s.(now := now);
    match e
    case NoteActivity => if s.lockedSince.None? then s.(activeSince := now) else s
    case SetPower(known, online) =>
      if !known || online then s.(offlineSince := None)
      else if s.offlineSince.None? then s.(offlineSince := Some(now), activeSince := now)
      else s
    case Tick =>
      if out == Did(EnterLock) then s.(lockedSince := Some(now), lastShutdown := None, attempt := Fresh)
      else if out == Did(Shutdown) then s.(lastShutdown := Some(now))
      else s
    case Lock => if out == Answer(true) then s.(lockedSince := Some(now), lastShutdown := None, attempt := Fresh) else s
    case Unlock =>
      if out == Answer(true)
      then s.(lockedSince := None, activeSince := now, lastShutdown := None, attempt := Fresh) else s
    case SuspendGaveUp => s.(attempt := Failed(now))
    case SuspendWithdrawn => s.(attempt := Fresh)
    case SuspendMissing => s.(attempt := Fresh, noSuspend := true)
    case RestoreGaveUp => s.(attempt := Fresh, noSuspend := true)
    case Wake => s.(attempt := Woke(now, s.onLock))
    case Configure(_, _, _) => s.(onLock := false)
    case SetSuspendOnLock(on) => s.(onLock := on)
    case _ => s
  }

  // At least d after t, as far as the clock can tell.
  predicate Apart(t: int, d: int, now: int) {
    now >= t + d || now == MAX_TIME
  }

  // What an automatic action promises when it happens at now.
  predicate Safe(p: Policy, s: Seen, now: int, action: Action) {
    match action
    case NoAction => true
    case EnterLock =>
      && s.lockedSince.None? && s.offlineSince.Some? && p.idle > 0
      && Apart(s.activeSince, p.idle, now) && Apart(s.offlineSince.value, p.idle, now)
    case Shutdown =>
      && s.lockedSince.Some? && s.offlineSince.Some? && p.shutdown > 0
      && Apart(s.lockedSince.value, p.shutdown, now) && Apart(s.offlineSince.value, p.shutdown, now)
      && Apart(s.offlineSince.value, OFFLINE_DELAY, now)
      && (s.lastShutdown.Some? ==> Apart(s.lastShutdown.value, RETRY_DELAY, now))
    case Suspend =>
      && s.lockedSince.Some? && s.offlineSince.Some? && p.shutdown == 0 && !s.noSuspend
      && Apart(s.lockedSince.value, p.suspend, now) && Apart(s.offlineSince.value, p.suspend, now)
      && Apart(s.offlineSince.value, OFFLINE_DELAY, now)
      && (s.attempt.Failed? ==> Apart(s.attempt.at, RETRY_DELAY, now))
      && (s.attempt.Woke? ==> Apart(s.attempt.at, p.suspend, now))
      && (s.attempt.Woke? && s.attempt.grace ==> Apart(s.attempt.at, LOCK_TIMEOUT, now))
  }

  datatype Timed = Timed(at: int, event: Event)

  // Every action of a run is safe, as long as the callers keep to the protocol.
  predicate SafeRun(p: Policy, s: Seen, run: seq<Timed>)
    decreases |run|
  {
    if run == [] then true
    else
      var e, now := run[0].event, run[0].at;
      s.now <= now <= MAX_TIME && Allowed(p, e) ==>
        var (next, out) := Step(p, e, now);
        && (out.Did? ==> Safe(p, s, now, out.action))
        && SafeRun(next, Observe(s, e, now, out), run[1..])
  }

  function FirstSight(now: int): Seen {
    Seen(now, now, None, None, None, Fresh, false, false)
  }

  // What policy and observer always agree on.
  predicate Agree(p: Policy, s: Seen) {
    && WellTyped(p) && Time(s.now)
    && (s.offlineSince.Some? <==> p.known && !p.online)
    && (s.offlineSince.Some? ==> 0 <= s.offlineSince.value == p.offlineAt <= s.now)
    && (s.lockedSince.None? <==> p.mode == Active)
    && (s.lockedSince.None? ==> p.lastActivityAt == s.activeSince <= s.now && s.lastShutdown.None? && s.attempt == Fresh)
    && (s.lockedSince.None? && s.offlineSince.Some? ==> s.offlineSince.value <= s.activeSince)
    && (s.lockedSince.Some? ==> 0 <= s.lockedSince.value <= p.lockedAt <= s.now)
    && (s.lockedSince.Some? && s.offlineSince.Some? ==> s.offlineSince.value <= p.lockedAt)
    && (s.lastShutdown.Some? ==> s.lastShutdown.value <= s.now && p.shutdownRetryAt >= DeadlineAfter(s.lastShutdown.value, RETRY_DELAY))
    && (s.attempt.Failed? ==> p.suspendRetryAt >= DeadlineAfter(s.attempt.at, RETRY_DELAY))
    && (s.attempt.Woke? ==> p.lockedAt >= s.attempt.at)
    && (s.attempt.Woke? && s.attempt.grace ==> p.suspendRetryAt >= DeadlineAfter(s.attempt.at, LOCK_TIMEOUT))
    && s.onLock == p.suspendOnLock
    && (s.noSuspend ==> p.suspendDisabled && p.mode != SuspendPrepare)
  }

  lemma {:induction false} DeadlinePassed(start: int, delay: int, now: int)
    requires now <= MAX_TIME
    ensures now >= DeadlineAfter(start, delay) <==> Apart(start, delay, now)
  {
  }

  lemma {:induction false} ActionsAreSafe(p: Policy, s: Seen, now: int)
    requires Agree(p, s) && s.now <= now <= MAX_TIME
    ensures Safe(p, s, now, Ticked(p, now).1)
  {
    hide DeadlineAfter, Apart;
    DeadlinePassed(p.lockedAt, p.shutdown, now);
    DeadlinePassed(p.lockedAt, p.suspend, now);
    DeadlinePassed(p.lastActivityAt, p.idle, now);
    DeadlinePassed(p.offlineAt, OFFLINE_DELAY, now);
    var action := Ticked(p, now).1;
    if action != NoAction {
      assert s.offlineSince.Some?;
      if action != EnterLock {
        assert s.lockedSince.Some?;
        CloserIsApart(s.lockedSince.value, p.lockedAt, p.shutdown, now);
        CloserIsApart(s.lockedSince.value, p.lockedAt, p.suspend, now);
        CloserIsApart(s.offlineSince.value, p.lockedAt, p.shutdown, now);
        CloserIsApart(s.offlineSince.value, p.lockedAt, p.suspend, now);
        if s.lastShutdown.Some? {
          DeadlinePassed(s.lastShutdown.value, RETRY_DELAY, now);
        }
        if s.attempt.Failed? {
          DeadlinePassed(s.attempt.at, RETRY_DELAY, now);
        }
        if s.attempt.Woke? {
          DeadlinePassed(s.attempt.at, LOCK_TIMEOUT, now);
          CloserIsApart(s.attempt.at, p.lockedAt, p.suspend, now);
        }
      } else {
        CloserIsApart(s.offlineSince.value, p.lastActivityAt, p.idle, now);
      }
    }
  }

  lemma {:induction false} CloserIsApart(early: int, late: int, d: int, now: int)
    requires early <= late
    ensures Apart(late, d, now) ==> Apart(early, d, now)
  {
  }

  lemma {:induction false} SwitchesAgree(p: Policy, s: Seen, e: Event, now: int)
    requires Agree(p, s) && s.now <= now <= MAX_TIME && Allowed(p, e)
    requires e.NoteActivity? || e.SetSuspendOnLock? || e.PowerKey?
    ensures var (next, out) := Step(p, e, now); Agree(next, Observe(s, e, now, out))
  {
    hide DeadlineAfter;
  }

  lemma {:induction false} SettingsAgree(p: Policy, s: Seen, e: Event, now: int)
    requires Agree(p, s) && s.now <= now <= MAX_TIME && Allowed(p, e)
    requires e.Configure? || e.ShutdownGaveUp?
    ensures var (next, out) := Step(p, e, now); Agree(next, Observe(s, e, now, out))
  {
    DeadlineGrows(if s.lastShutdown.Some? then s.lastShutdown.value else now, now, RETRY_DELAY);
    hide DeadlineAfter;
  }

  lemma {:induction false} DeadlineGrows(early: int, late: int, d: int)
    requires early <= late <= MAX_TIME && Time(d)
    ensures late <= DeadlineAfter(late, d) <= MAX_TIME && DeadlineAfter(early, d) <= DeadlineAfter(late, d)
  {
  }

  lemma {:induction false} PowerAgrees(p: Policy, s: Seen, e: Event, now: int)
    requires Agree(p, s) && s.now <= now <= MAX_TIME && Allowed(p, e)
    requires e.SetPower?
    ensures var (next, out) := Step(p, e, now); Agree(next, Observe(s, e, now, out))
  {
    hide *;
    if e.known && !e.online {
      if p.known && !p.online {
        SameSampleAgrees(p, s, e, now);
      } else {
        UnpluggedAgrees(p, s, e, now);
      }
    } else {
      PluggedAgrees(p, s, e, now);
    }
  }

  lemma {:induction false} SameSampleAgrees(p: Policy, s: Seen, e: Event, now: int)
    requires Agree(p, s) && s.now <= now <= MAX_TIME && Allowed(p, e)
    requires e.SetPower? && e.known && !e.online && p.known && !p.online
    ensures var (next, out) := Step(p, e, now); Agree(next, Observe(s, e, now, out))
  {
    hide DeadlineAfter;
  }

  lemma {:induction false} UnpluggedAgrees(p: Policy, s: Seen, e: Event, now: int)
    requires Agree(p, s) && s.now <= now <= MAX_TIME && Allowed(p, e)
    requires e.SetPower? && e.known && !e.online && (!p.known || p.online)
    ensures var (next, out) := Step(p, e, now); Agree(next, Observe(s, e, now, out))
  {
    DeadlineGrows(now, now, p.idle);
    hide DeadlineAfter;
  }

  lemma {:induction false} PluggedAgrees(p: Policy, s: Seen, e: Event, now: int)
    requires Agree(p, s) && s.now <= now <= MAX_TIME && Allowed(p, e)
    requires e.SetPower? && (!e.known || e.online)
    ensures var (next, out) := Step(p, e, now); Agree(next, Observe(s, e, now, out))
  {
    hide DeadlineAfter;
  }

  lemma {:induction false} LockAgrees(p: Policy, s: Seen, now: int)
    requires Agree(p, s) && s.now <= now <= MAX_TIME
    ensures var (next, out) := Step(p, Lock, now); Agree(next, Observe(s, Lock, now, out))
  {
    hide DeadlineAfter;
    if p.mode == Active {
      assert Step(p, Lock, now).1 == Answer(true);
    }
  }

  lemma {:induction false} UnlockAgrees(p: Policy, s: Seen, now: int)
    requires Agree(p, s) && s.now <= now <= MAX_TIME
    ensures var (next, out) := Step(p, Unlock, now); Agree(next, Observe(s, Unlock, now, out))
  {
    hide DeadlineAfter;
    if p.mode == Locked {
      assert Step(p, Unlock, now).1 == Answer(true);
    }
  }

  lemma {:induction false} OutcomesAgree(p: Policy, s: Seen, e: Event, now: int)
    requires Agree(p, s) && s.now <= now <= MAX_TIME && Allowed(p, e)
    requires e.SuspendGaveUp? || e.SuspendWithdrawn? || e.SuspendMissing? || e.RestoreGaveUp?
    ensures var (next, out) := Step(p, e, now); Agree(next, Observe(s, e, now, out))
  {
  }

  lemma {:induction false} WakeAgrees(p: Policy, s: Seen, e: Event, now: int)
    requires Agree(p, s) && s.now <= now <= MAX_TIME && Allowed(p, e)
    requires e.Wake?
    ensures var (next, out) := Step(p, e, now); Agree(next, Observe(s, e, now, out))
  {
  }

  lemma {:induction false} TickAgrees(p: Policy, s: Seen, e: Event, now: int)
    requires Agree(p, s) && s.now <= now <= MAX_TIME && Allowed(p, e)
    requires e.Tick?
    ensures var (next, out) := Step(p, e, now); Agree(next, Observe(s, e, now, out))
  {
    ActionsAreSafe(p, s, now);
    TickedCases(p, now);
    hide Ticked, DeadlineAfter, Apart;
  }

  lemma {:induction false} TickedCases(p: Policy, now: int)
    ensures var (next, action) := Ticked(p, now);
            && (action == NoAction ==> next == p)
            && (action == EnterLock ==> p.mode == Active && next == LockedAt(p, now))
            && (action == Shutdown ==> p.mode == Locked && next == ShutdownFailed(p, now))
            && (action == Suspend ==> p.mode == Locked && !p.suspendDisabled && next == p.(mode := SuspendPrepare))
  {
    hide DeadlineAfter;
  }

  lemma {:induction false} StepAgrees(p: Policy, s: Seen, e: Event, now: int)
    requires Agree(p, s) && s.now <= now <= MAX_TIME && Allowed(p, e)
    ensures var (next, out) := Step(p, e, now); Agree(next, Observe(s, e, now, out))
  {
    hide *;
    match e
    case SetPower(_, _) => PowerAgrees(p, s, e, now);
    case Tick => TickAgrees(p, s, e, now);
    case Configure(_, _, _) => SettingsAgree(p, s, e, now);
    case ShutdownGaveUp => SettingsAgree(p, s, e, now);
    case Lock => LockAgrees(p, s, now);
    case Unlock => UnlockAgrees(p, s, now);
    case SuspendGaveUp => OutcomesAgree(p, s, e, now);
    case SuspendWithdrawn => OutcomesAgree(p, s, e, now);
    case SuspendMissing => OutcomesAgree(p, s, e, now);
    case RestoreGaveUp => OutcomesAgree(p, s, e, now);
    case Wake => WakeAgrees(p, s, e, now);
    case _ => SwitchesAgree(p, s, e, now);
  }

  // Every action of every run from a fresh policy keeps its distances.
  lemma {:induction false} RunsAreSafe(p: Policy, s: Seen, run: seq<Timed>)
    requires Agree(p, s)
    ensures SafeRun(p, s, run)
    decreases |run|
  {
    hide Agree, Safe, Step, Observe, Allowed;
    if run != [] {
      var e, now := run[0].event, run[0].at;
      if s.now <= now <= MAX_TIME && Allowed(p, e) {
        StepAgrees(p, s, e, now);
        if e.Tick? {
          ActionsAreSafe(p, s, now);
        }
        OnlyTickActs(p, e, now);
        var (next, out) := Step(p, e, now);
        RunsAreSafe(next, Observe(s, e, now, out), run[1..]);
      }
    }
  }

  lemma {:induction false} OnlyTickActs(p: Policy, e: Event, now: int)
    ensures Step(p, e, now).1.Did? ==> e.Tick? && Step(p, e, now).1 == Did(Ticked(p, now).1)
  {
  }

  lemma {:induction false} RunsFromInitAreSafe(start: int, run: seq<Timed>)
    requires Time(start)
    ensures SafeRun(Initial(start), FirstSight(start), run)
  {
    RunsAreSafe(Initial(start), FirstSight(start), run);
  }

  // ---- The end of the clock ----

  // Exactly when a locked policy on battery shuts down: its distances have passed, or the clock stands at its end.
  lemma {:induction false} ShutdownExactly(p: Policy, now: int)
    requires WellTyped(p) && Time(now)
    ensures Ticked(p, now).1 == Shutdown <==>
            && p.mode == Locked && p.shutdown > 0 && p.lockedAt >= 0 && p.known && !p.online && p.offlineAt >= 0
            && now >= p.shutdownRetryAt
            && Apart(p.lockedAt, p.shutdown, now) && Apart(p.offlineAt, OFFLINE_DELAY, now)
  {
    DeadlinePassed(p.lockedAt, p.shutdown, now);
    DeadlinePassed(p.offlineAt, OFFLINE_DELAY, now);
    hide DeadlineAfter, Apart;
  }

  // At the end of the clock every distance saturates: a shutdown right after the lock, and again at once.
  lemma {:induction false} ClockEnd()
    ensures var p := ShutdownFailed(Configured(PowerSet(Initial(MAX_TIME), true, false, MAX_TIME), 0, 0, 300000), MAX_TIME);
            var locked := LockedAt(p, MAX_TIME);
            var (again, action) := Ticked(locked, MAX_TIME);
            action == Shutdown && Ticked(again, MAX_TIME).1 == Shutdown
  {
  }
}
