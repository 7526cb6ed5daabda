/**
  The power policy of the launcher, C1ancher/src/core/power_policy.c: deadlines
  for automatic lock, suspend and shutdown, and the events that move them.
  Times are milliseconds of a monotonic clock, bounded by the 64-bit range in
  which deadlines saturate.
 */
module PowerPolicy {
  import opened Options

  const MAX_TIME: int := 0x7FFF_FFFF_FFFF_FFFF
  const MAX_INT: int := 0x7FFF_FFFF

  const IDLE_TIMEOUT := 5 * 60 * 1000
  const LOCK_TIMEOUT := 20 * 1000
  const OFFLINE_DELAY := 20 * 1000
  const RETRY_DELAY := 60 * 1000

  datatype Mode = Active | Locked | SuspendPrepare

  datatype Action = NoAction | EnterLock | Suspend | Shutdown

  datatype Policy = Policy(
    mode: Mode, lastActivityAt: int, lockedAt: int, offlineAt: int, suspendRetryAt: int, shutdownRetryAt: int,
    idle: int, suspend: int, shutdown: int, known: bool, online: bool, suspendDisabled: bool, suspendOnLock: bool,
    suppressWakeup: bool)

  predicate Time(t: int) {
    0 <= t <= MAX_TIME
  }

  // Every field is a value of its 64-bit type, -1 standing for an unset time.
  predicate WellTyped(p: Policy) {
    && -1 <= p.lastActivityAt <= MAX_TIME && -1 <= p.lockedAt <= MAX_TIME && -1 <= p.offlineAt <= MAX_TIME
    && -1 <= p.suspendRetryAt <= MAX_TIME && -1 <= p.shutdownRetryAt <= MAX_TIME
    && Time(p.idle) && Time(p.suspend) && Time(p.shutdown)
  }

  // ---- Deadlines ----

  function DeadlineAfter(start: int, delay: int): int {
    if start > MAX_TIME - delay then MAX_TIME else start + delay
  }

  function Later(a: int, b: int): int {
    if b > a then b else a
  }

  function LockDeadline(p: Policy): Option<int> {
    if p.mode != Active || p.idle <= 0 || !p.known || p.online then None
    else Some(DeadlineAfter(p.lastActivityAt, p.idle))
  }

  function OfflineDeadline(p: Policy): Option<int> {
    if !p.known || p.online || p.offlineAt < 0 then None
    else Some(DeadlineAfter(p.offlineAt, OFFLINE_DELAY))
  }

  function ShutdownDeadline(p: Policy): Option<int> {
    if p.shutdown <= 0 || p.mode != Locked || p.lockedAt < 0 || OfflineDeadline(p).None? then None
    else Some(Later(Later(DeadlineAfter(p.lockedAt, p.shutdown), OfflineDeadline(p).value), p.shutdownRetryAt))
  }

  function SuspendDeadline(p: Policy): Option<int> {
    if p.mode != Locked || p.suspendDisabled || (p.suspend <= 0 && !p.suspendOnLock) || p.shutdown > 0 ||
       OfflineDeadline(p).None? then None
    else Some(Later(Later(DeadlineAfter(p.lockedAt, p.suspend), OfflineDeadline(p).value), p.suspendRetryAt))
  }

  function TimeoutUntil(deadline: int, now: int): int {
    if deadline <= now then 0 else if deadline - now > MAX_INT then MAX_INT else deadline - now
  }

  // Minimum of two timeouts, a negative one meaning none.
  function Sooner(result: int, deadline: Option<int>, now: int): int {
    if deadline.None? then result
    else
      var candidate := TimeoutUntil(deadline.value, now);
      if result < 0 || candidate < result then candidate else result
  }

  function Timeout(p: Policy, now: int): int {
    Sooner(Sooner(Sooner(-1, LockDeadline(p), now), ShutdownDeadline(p), now), SuspendDeadline(p), now)
  }

  // ---- Events as functions on values ----

  function Initial(now: int): Policy {
    Policy(Active, now, -1, -1, -1, -1, IDLE_TIMEOUT, LOCK_TIMEOUT, 0, false, false, false, false, false)
  }

  function Positive(x: int): int {
    if x > 0 then x else 0
  }

  function Configured(p: Policy, idle: int, suspend: int, shutdown: int): Policy {
    p.(idle := Positive(idle), suspend := Positive(suspend), shutdown := Positive(shutdown), suspendOnLock := false)
  }

  function ActivityNoted(p: Policy, now: int): Policy {
    if p.mode == Active then p.(lastActivityAt := now) else p
  }

  function PowerSet(p: Policy, known: bool, online: bool, now: int): Policy {
    var offline := known && !online;
    var q :=
      if offline && (!p.known || p.online) then
        var r := p.(offlineAt := now, lastActivityAt := now);
        if p.mode != Active then
          r.(lockedAt := now, suspendRetryAt := Later(p.suspendRetryAt, DeadlineAfter(now, p.idle)))
        else r
      else if !offline then p.(offlineAt := -1)
      else p;
    q.(known := known, online := online)
  }

  function LockedAt(p: Policy, now: int): Policy {
    if p.mode != Active then p
    else p.(mode := Locked, lockedAt := now, suspendRetryAt := -1, shutdownRetryAt := -1)
  }

  function UnlockedAt(p: Policy, now: int): Policy {
    if p.mode != Locked then p
    else p.(mode := Active, lastActivityAt := now, lockedAt := -1, suspendRetryAt := -1, shutdownRetryAt := -1,
            suppressWakeup := false)
  }

  function ShutdownFailed(p: Policy, now: int): Policy {
    p.(shutdownRetryAt := DeadlineAfter(now, RETRY_DELAY))
  }

  function Due(deadline: Option<int>, now: int): bool {
    deadline.Some? && now >= deadline.value
  }

  function Ticked(p: Policy, now: int): (Policy, Action) {
    if Due(ShutdownDeadline(p), now) then (ShutdownFailed(p, now), Shutdown)
    else if Due(LockDeadline(p), now) then (LockedAt(p, now), EnterLock)
    else if Due(SuspendDeadline(p), now) then (p.(mode := SuspendPrepare), Suspend)
    else (p, NoAction)
  }

  function SuspendFailed(p: Policy, now: int): Policy {
    p.(mode := Locked, suspendRetryAt := Later(p.suspendRetryAt, DeadlineAfter(now, RETRY_DELAY)))
  }

  function SuspendCancelled(p: Policy): Policy {
    p.(mode := Locked, suspendRetryAt := -1)
  }

  function SuspendUnavailable(p: Policy): Policy {
    p.(mode := Locked, suspendRetryAt := -1, suspendDisabled := true)
  }

  function RestoreFailed(p: Policy, now: int): Policy {
    p.(mode := Locked, lockedAt := now, suspendRetryAt := -1, suspendDisabled := true, suppressWakeup := true)
  }

  function Resumed(p: Policy, now: int): Policy {
    p.(mode := Locked, lockedAt := now,
       suspendRetryAt := if p.suspendOnLock then Later(p.suspendRetryAt, DeadlineAfter(now, LOCK_TIMEOUT))
                         else p.suspendRetryAt,
       suspendDisabled := false, suppressWakeup := true)
  }

  function WakeupFiltered(p: Policy, pressed: bool): (Policy, bool) {
    if !p.suppressWakeup then (p, false)
    else (p.(suppressWakeup := pressed), true)
  }

  // ---- The policy object ----

  class PowerState {
    var mode: Mode
    var lastActivityAt: int
    var lockedAt: int
    var offlineAt: int
    var suspendRetryAt: int
    var shutdownRetryAt: int
    var idle: int
    var suspend: int
    var shutdown: int
    var known: bool
    var online: bool
    var suspendDisabled: bool
    var suspendOnLock: bool
    var suppressWakeup: bool

    function View(): Policy
      reads this
    {
      Policy(mode, lastActivityAt, lockedAt, offlineAt, suspendRetryAt, shutdownRetryAt, idle, suspend, shutdown,
             known, online, suspendDisabled, suspendOnLock, suppressWakeup)
    }

    constructor (now: int)
      ensures View() == Initial(now)
    {
      mode, lastActivityAt, lockedAt, offlineAt := Active, now, -1, -1;
      suspendRetryAt, shutdownRetryAt := -1, -1;
      idle, suspend, shutdown := IDLE_TIMEOUT, LOCK_TIMEOUT, 0;
      known, online, suspendDisabled, suspendOnLock, suppressWakeup := false, false, false, false, false;
    }

    method Configure(idleMs: int, suspendMs: int, shutdownMs: int)
      modifies this
      ensures View() == Configured(old(View()), idleMs, suspendMs, shutdownMs)
    {
      idle := if idleMs > 0 then idleMs else 0;
      suspend := if suspendMs > 0 then suspendMs else 0;
      shutdown := if shutdownMs > 0 then shutdownMs else 0;
      suspendOnLock := false;
    }

    method NoteActivity(now: int)
      modifies this
      ensures View() == ActivityNoted(old(View()), now)
    {
      if mode == Active {
        lastActivityAt := now;
      }
    }

    method SetExternalPower(isKnown: bool, isOnline: bool, now: int)
      modifies this
      ensures View() == PowerSet(old(View()), isKnown, isOnline, now)
    {
      var offline := isKnown && !isOnline;
      if offline && (!known || online) {
        offlineAt := now;
        lastActivityAt := now;
        if mode != Active {
          var deadline := DeadlineAfter(now, idle);
          lockedAt := now;
          if deadline > suspendRetryAt {
            suspendRetryAt := deadline;
          }
        }
      } else if !offline {
        offlineAt := -1;
      }
      known := isKnown;
      online := isOnline;
    }

    method Lock(now: int) returns (locked: bool)
      modifies this
      ensures locked <==> old(mode) == Active
      ensures View() == LockedAt(old(View()), now)
    {
      if mode != Active {
        return false;
      }
      mode, lockedAt, suspendRetryAt, shutdownRetryAt := Locked, now, -1, -1;
      return true;
    }

    method Unlock(now: int) returns (unlocked: bool)
      modifies this
      ensures unlocked <==> old(mode) == Locked
      ensures View() == UnlockedAt(old(View()), now)
    {
      if mode != Locked {
        return false;
      }
      mode, lastActivityAt, lockedAt := Active, now, -1;
      suspendRetryAt, shutdownRetryAt := -1, -1;
      suppressWakeup := false;
      return true;
    }

    method Tick(now: int) returns (action: Action)
      modifies this
      ensures (View(), action) == Ticked(old(View()), now)
    {
      var deadline := ShutdownDeadline(View());
      if deadline.Some? && now >= deadline.value {
        FailShutdown(now);
        return Shutdown;
      }
      deadline := LockDeadline(View());
      if deadline.Some? && now >= deadline.value {
        var locked := Lock(now);
        if locked {
          return EnterLock;
        }
      }
      deadline := SuspendDeadline(View());
      if deadline.Some? && now >= deadline.value {
        mode := SuspendPrepare;
        return Suspend;
      }
      return NoAction;
    }

    method FailShutdown(now: int)
      modifies this
      ensures View() == ShutdownFailed(old(View()), now)
    {
      shutdownRetryAt := DeadlineAfter(now, RETRY_DELAY);
    }

    method FailSuspend(now: int)
      modifies this
      ensures View() == SuspendFailed(old(View()), now)
    {
      mode := Locked;
      var deadline := DeadlineAfter(now, RETRY_DELAY);
      if deadline > suspendRetryAt {
        suspendRetryAt := deadline;
      }
    }

    method CancelSuspend()
      modifies this
      ensures View() == SuspendCancelled(old(View()))
    {
      mode, suspendRetryAt := Locked, -1;
    }

    method DisableSuspend()
      modifies this
      ensures View() == SuspendUnavailable(old(View()))
    {
      mode, suspendRetryAt, suspendDisabled := Locked, -1, true;
    }

    method FailRestore(now: int)
      modifies this
      ensures View() == RestoreFailed(old(View()), now)
    {
      mode, lockedAt, suspendRetryAt := Locked, now, -1;
      suspendDisabled, suppressWakeup := true, true;
    }

    method Resume(now: int)
      modifies this
      ensures View() == Resumed(old(View()), now)
    {
      mode, lockedAt := Locked, now;
      if suspendOnLock {
        var deadline := DeadlineAfter(now, LOCK_TIMEOUT);
        if deadline > suspendRetryAt {
          suspendRetryAt := deadline;
        }
      }
      suspendDisabled, suppressWakeup := false, true;
    }

    method FilterWakeup(pressed: bool) returns (filtered: bool)
      modifies this
      ensures (View(), filtered) == WakeupFiltered(old(View()), pressed)
    {
      if !suppressWakeup {
        return false;
      }
      if !pressed {
        suppressWakeup := false;
      }
      return true;
    }

    method TimeoutAt(now: int) returns (result: int)
      ensures result == Timeout(View(), now)
    {
      result := -1;
      var deadline := LockDeadline(View());
      if deadline.Some? {
        result := TimeoutUntil(deadline.value, now);
      }
      deadline := ShutdownDeadline(View());
      if deadline.Some? {
        var candidate := TimeoutUntil(deadline.value, now);
        if result < 0 || candidate < result {
          result := candidate;
        }
      }
      deadline := SuspendDeadline(View());
      if deadline.Some? {
        var candidate := TimeoutUntil(deadline.value, now);
        if result < 0 || candidate < result {
          result := candidate;
        }
      }
    }
  }
}
