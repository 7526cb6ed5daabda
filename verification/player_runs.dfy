/**
  What the player's supervision promises over every interleaving of playing,
  stopping, process exits, stderr lines and queue reads.
 */
module PlayerRuns {
  import opened Options
  import opened Player

  // How many terminal events of run g there are.
  function Terminals(m: multiset<Event>, g: nat): nat {
    m[Event(Completed, g)] + m[Event(Failed, g)]
  }

  function Underway(sending: Option<Sending>, g: nat): nat {
    if sending.Some? && Terminal(sending.value.event) && sending.value.event.generation == g then 1 else 0
  }

  // A run that ended by itself, as the player noticed.
  predicate Ended(runs: map<nat, Run>, g: nat) {
    g in runs && runs[g].settled && !runs[g].stopping
  }

  predicate Queued(s: State) {
    && |s.core.queue| <= QUEUE_BOUND
    && (s.sending.Some? && s.sending.value.phase == Push ==> |s.core.queue| < QUEUE_BOUND)
  }

  predicate Numbered(s: State) {
    && (forall g :: g in s.runs ==> 1 <= g <= s.core.nextGen)
    && (s.core.current.Some? ==>
          var g := s.core.current.value;
          g == s.core.nextGen && g in s.runs && !s.runs[g].stopping && !s.runs[g].settled)
    && (forall g :: g in s.runs && !s.runs[g].stopping && !s.runs[g].settled ==> s.core.current == Some(g))
    && (forall e :: e in s.pushed ==> e.generation in s.runs)
    && (s.core.paused ==> s.core.current.Some?)
    && (s.control == Starting || s.control.Waiting? ==> s.core.current.None?)
  }

  // The goroutine in the locked send speaks for the newest run.
  predicate Speaking(s: State) {
    s.sending.Some? ==>
      var e := s.sending.value.event;
      && e.generation == s.core.nextGen && e.generation in s.runs
      && (if Terminal(e) then s.core.current.None? else s.core.current == Some(e.generation))
  }

  // A run that ended by itself has exactly one terminal event, every other run none.
  ghost predicate SentOnce(pushed: seq<Event>, sending: Option<Sending>, runs: map<nat, Run>) {
    forall g: nat :: Terminals(multiset(pushed), g) + Underway(sending, g) == if Ended(runs, g) then 1 else 0
  }

  predicate Conserved(s: State) {
    multiset(s.pushed) == multiset(s.read) + multiset(s.evicted) + multiset(s.core.queue)
  }

  predicate KeptNewest(s: State) {
    forall e :: e in s.evicted && Terminal(e) ==> e.generation < s.core.nextGen
  }

  predicate Follows(s: State) {
    && (s.control == Idle || s.control.Pausing? ==>
          s.active == 0 ||
          (s.active == s.core.nextGen && s.active in s.runs && Terminals(multiset(s.read), s.active) == 0))
    && (s.control == Adopting ==>
          s.core.nextGen in s.runs && Terminals(multiset(s.read), s.core.nextGen) == 0)
  }

  ghost predicate Sound(s: State) {
    && Queued(s) && Numbered(s) && Speaking(s) && SentOnce(s.pushed, s.sending, s.runs) && Conserved(s) && KeptNewest(s) && Follows(s)
  }

  // ---- Steps of the control side ----

  lemma {:induction false} NothingSentYet(s: State, g: nat)
    requires SentOnce(s.pushed, s.sending, s.runs) && Conserved(s) && !Ended(s.runs, g)
    ensures Terminals(multiset(s.pushed), g) == 0 && Terminals(multiset(s.read), g) == 0
    ensures Terminals(multiset(s.core.queue), g) == 0 && Underway(s.sending, g) == 0
  {
    assert Terminals(multiset(s.pushed), g) == 0;
  }

  // Who ended by themselves is unchanged by stopping or launching a run.
  lemma {:induction false} SameEnded(pushed: seq<Event>, sending: Option<Sending>, runs: map<nat, Run>, next: map<nat, Run>)
    requires SentOnce(pushed, sending, runs) && forall g: nat :: Ended(next, g) <==> Ended(runs, g)
    ensures SentOnce(pushed, sending, next)
  {
    hide Terminals, Underway, Ended;
    forall g: nat ensures Terminals(multiset(pushed), g) + Underway(sending, g) == if Ended(next, g) then 1 else 0 {
      assert Ended(next, g) <==> Ended(runs, g);
    }
  }

  lemma {:induction false} DetachSound(s: State, play: bool)
    requires Sound(s) && s.sending.None?
    ensures Sound(Detach(s, play))
  {
    SameEnded(s.pushed, s.sending, s.runs, Detach(s, play).runs);
    hide SentOnce, Terminals;
  }

  lemma {:induction false} LaunchSound(s: State)
    requires Sound(s) && s.sending.None? && s.control == Starting
    ensures Sound(Apply(s, Launch))
  {
    SameEnded(s.pushed, s.sending, s.runs, Apply(s, Launch).runs);
    NothingSentYet(s, s.core.nextGen + 1);
    hide SentOnce, Terminals;
  }

  lemma {:induction false} ControlSound(s: State, step: Step)
    requires Sound(s)
    requires step.Reaped? || step.StartFails? || step.Adopt? || step.BeginPause? || step.EndPause?
    ensures Sound(Apply(s, step))
  {
    hide SentOnce, Terminals;
  }

  // ---- Steps of the run's goroutines ----

  lemma {:induction false} ExitSound(s: State, run: nat, failed: bool)
    requires Sound(s)
    ensures Sound(Apply(s, Exit(run, failed)))
  {
    SameEnded(s.pushed, s.sending, s.runs, Apply(s, Exit(run, failed)).runs);
    hide SentOnce, Terminals;
  }

  lemma {:induction false} LineSound(s: State, run: nat, kind: Kind)
    requires Sound(s)
    ensures Sound(Apply(s, Line(run, kind)))
  {
    var t := Apply(s, Line(run, kind));
    assert SentOnce(t.pushed, t.sending, t.runs) by {
      hide Terminals;
      forall g: nat ensures Underway(t.sending, g) == Underway(s.sending, g) {
      }
    }
    hide SentOnce, Terminals;
  }

  lemma {:induction false} SettleSound(s: State, run: nat)
    requires Sound(s)
    ensures Sound(Apply(s, Settle(run)))
  {
    var t := Apply(s, Settle(run));
    if t != s {
      SettleSends(s, run);
      hide SentOnce, Terminals;
    }
  }

  // A run that settles unstopped is the current one, and its terminal event is on its way from then on.
  lemma {:induction false} SettleSends(s: State, run: nat)
    requires Sound(s) && s.sending.None? && run in s.runs && !s.runs[run].settled
    requires s.runs[run].exited.Some?
    ensures var t := Apply(s, Settle(run)); SentOnce(t.pushed, t.sending, t.runs)
  {
    var t := Apply(s, Settle(run));
    forall g: nat ensures Terminals(multiset(t.pushed), g) + Underway(t.sending, g) == if Ended(t.runs, g) then 1 else 0 {
      assert Terminals(multiset(s.pushed), g) + Underway(s.sending, g) == if Ended(s.runs, g) then 1 else 0;
    }
  }

  // ---- The send ----

  // The oldest event leaves to make room: never a terminal event of the newest run.
  lemma {:induction false} EvictedIsOld(s: State)
    requires Sound(s) && s.sending.Some? && s.core.queue != []
    ensures Terminal(s.core.queue[0]) ==> s.core.queue[0].generation < s.core.nextGen
  {
    var e := s.core.queue[0];
    assert e in multiset(s.core.queue);
    assert e in multiset(s.pushed);
    assert e in s.pushed;
    assert Terminal(e) ==> Terminals(multiset(s.pushed), e.generation) >= 1;
    assert Terminals(multiset(s.pushed), e.generation) + Underway(s.sending, e.generation) ==
           if Ended(s.runs, e.generation) then 1 else 0;
  }

  lemma {:induction false} HeadAndRest(queue: seq<Event>)
    requires queue != []
    ensures multiset(queue) == multiset{queue[0]} + multiset(queue[1..])
  {
    assert queue == [queue[0]] + queue[1..];
  }

  // The three ways a look at the queue ends.
  lemma {:induction false} SendCases(s: State)
    requires s.sending.Some?
    ensures var t, e := Apply(s, SendOn), s.sending.value;
      && (e.phase != Evict && |s.core.queue| < QUEUE_BOUND ==>
            t == s.(core := s.core.(queue := s.core.queue + [e.event]), sending := None, pushed := s.pushed + [e.event]))
      && (e.phase != Evict && |s.core.queue| >= QUEUE_BOUND ==>
            (t == s.(sending := None) && !Terminal(e.event)) || (t == s.(sending := t.sending) && t.sending.Some? &&
             t.sending.value.event == e.event && (t.sending.value.phase == Push ==> e.phase == Push)))
      && (e.phase == Evict && s.core.queue == [] ==> t == s.(sending := Some(e.(phase := Push))))
      && (e.phase == Evict && s.core.queue != [] ==>
            t == s.(core := s.core.(queue := s.core.queue[1..]), sending := Some(e.(phase := Push)),
                    evicted := s.evicted + [s.core.queue[0]]))
  {
    assert s.pushed + [] == s.pushed && s.evicted + [] == s.evicted;
  }

  lemma {:induction false} EvictSound(s: State)
    requires Sound(s) && s.sending.Some? && s.sending.value.phase == Evict
    ensures Sound(Apply(s, SendOn))
  {
    SendCases(s);
    var t := Apply(s, SendOn);
    if s.core.queue != [] {
      EvictedIsOld(s);
      EvictConserves(s);
    }
    SameUnderway(s.pushed, s.sending, t.sending, s.runs);
    hide SentOnce, Terminals, Conserved, Apply;
  }

  lemma {:induction false} EvictConserves(s: State)
    requires Conserved(s) && s.core.queue != []
    ensures forall sending :: Conserved(s.(core := s.core.(queue := s.core.queue[1..]), sending := sending,
                                           evicted := s.evicted + [s.core.queue[0]]))
  {
    HeadAndRest(s.core.queue);
    assert multiset(s.evicted + [s.core.queue[0]]) == multiset(s.evicted) + multiset{s.core.queue[0]};
  }

  lemma {:induction false} SameUnderway(pushed: seq<Event>, sending: Option<Sending>, next: Option<Sending>, runs: map<nat, Run>)
    requires SentOnce(pushed, sending, runs) && forall g: nat :: Underway(next, g) == Underway(sending, g)
    ensures SentOnce(pushed, next, runs)
  {
    hide Terminals, Underway, Ended;
    forall g: nat ensures Terminals(multiset(pushed), g) + Underway(next, g) == if Ended(runs, g) then 1 else 0 {
      assert Underway(next, g) == Underway(sending, g);
    }
  }

  // A pushed event is no longer on its way but in the queue.
  lemma {:induction false} PushedOnce(pushed: seq<Event>, s: Sending, runs: map<nat, Run>)
    requires SentOnce(pushed, Some(s), runs)
    ensures SentOnce(pushed + [s.event], None, runs)
  {
    assert multiset(pushed + [s.event]) == multiset(pushed) + multiset{s.event};
    forall g: nat
      ensures Terminals(multiset(pushed + [s.event]), g) + Underway(None, g) == if Ended(runs, g) then 1 else 0
    {
      assert Terminals(multiset(pushed), g) + Underway(Some(s), g) == if Ended(runs, g) then 1 else 0;
    }
  }

  lemma {:induction false} PushSound(s: State)
    requires Sound(s) && s.sending.Some? && s.sending.value.phase != Evict
    ensures Sound(Apply(s, SendOn))
  {
    SendCases(s);
    var t := Apply(s, SendOn);
    if |s.core.queue| < QUEUE_BOUND {
      PushedOnce(s.pushed, s.sending.value, s.runs);
      PushConserves(s, s.sending.value.event);
    } else {
      SameUnderway(s.pushed, s.sending, t.sending, s.runs);
    }
    hide SentOnce, Terminals, Apply, Conserved;
  }

  lemma {:induction false} PushConserves(s: State, e: Event)
    requires Conserved(s)
    ensures Conserved(s.(core := s.core.(queue := s.core.queue + [e]), sending := None, pushed := s.pushed + [e]))
  {
  }

  // ---- The reader ----

  lemma {:induction false} ReadCases(s: State)
    requires s.control == Idle && s.core.queue != []
    ensures var t, e := Apply(s, Read), s.core.queue[0];
      && t == s.(core := s.core.(queue := s.core.queue[1..]), read := s.read + [e], control := t.control, active := t.active)
      && (!(EventApplies(s.active, e) && Terminal(e)) ==> t.control == Idle && t.active == s.active)
      && (EventApplies(s.active, e) && Terminal(e) ==> t.control == WantsPlay || (t.control == Idle && t.active == 0))
  {
  }

  lemma {:induction false} ReadSound(s: State)
    requires Sound(s)
    ensures Sound(Apply(s, Read))
  {
    if s.control == Idle && s.core.queue != [] {
      ReadCases(s);
      var t := Apply(s, Read);
      ReadConserves(s, t);
      ReadFollows(s, t);
      hide SentOnce, Terminals, Apply, Conserved, Follows;
    }
  }

  lemma {:induction false} ReadConserves(s: State, t: State)
    requires Conserved(s) && s.core.queue != [] && t.pushed == s.pushed && t.evicted == s.evicted
    requires t.core.queue == s.core.queue[1..] && t.read == s.read + [s.core.queue[0]]
    ensures Conserved(t)
  {
    HeadAndRest(s.core.queue);
    assert multiset(t.read) == multiset(s.read) + multiset{s.core.queue[0]};
  }

  // A terminal event of the run in focus ends the focus or the waiting for it.
  lemma {:induction false} ReadFollows(s: State, t: State)
    requires Follows(s) && s.core.queue != [] && s.control == Idle && t.read == s.read + [s.core.queue[0]]
    requires t.core.nextGen == s.core.nextGen && t.runs == s.runs && t.control in {Idle, WantsPlay}
    requires var e := s.core.queue[0];
      if EventApplies(s.active, e) && Terminal(e) then t.control == WantsPlay || t.active == 0
      else t.control == Idle && t.active == s.active
    ensures Follows(t)
  {
    assert multiset(t.read) == multiset(s.read) + multiset{s.core.queue[0]};
  }

  lemma {:induction false} StepSound(s: State, step: Step)
    requires Sound(s)
    ensures Sound(Apply(s, step))
  {
    if step.BeginPlay? || step.BeginStop? {
      if s.sending.None? {
        DetachSound(s, true);
        DetachSound(s, false);
      }
      hide Sound, Detach;
    } else if step.Launch? {
      if s.sending.None? && s.control == Starting {
        LaunchSound(s);
      }
      hide Sound, LaunchedCore;
    } else if step.SendOn? {
      if s.sending.Some? {
        if s.sending.value.phase == Evict {
          EvictSound(s);
        } else {
          PushSound(s);
        }
      }
      hide Sound, SendStep;
    } else {
      hide *;
      match step
      case Exit(run, failed) => ExitSound(s, run, failed);
      case Settle(run) => SettleSound(s, run);
      case Line(run, kind) => LineSound(s, run, kind);
      case Read => ReadSound(s);
      case _ => ControlSound(s, step);
    }
  }

  lemma {:induction false} RunsAreSound(s: State, steps: seq<Step>)
    requires Sound(s)
    ensures Sound(RunAll(s, steps))
    decreases |steps|
  {
    hide Sound, Apply;
    if steps != [] {
      StepSound(s, steps[0]);
      RunsAreSound(Apply(s, steps[0]), steps[1..]);
    }
  }

  lemma {:induction false} ReachableIsSound(steps: seq<Step>)
    ensures Sound(RunAll(FRESH, steps))
  {
    hide RunAll;
    RunsAreSound(FRESH, steps);
  }

  // ---- What is promised ----

  // Each run that ends by itself sends its terminal event exactly once, a stopped one never; nothing pushed is lost
  // but what was evicted, and no terminal event of the newest run ever is; sending never waits for room.
  lemma {:induction false} TerminalEventsAreKept(steps: seq<Step>, g: nat)
    ensures var s := RunAll(FRESH, steps);
            && Terminals(multiset(s.pushed), g) + Underway(s.sending, g) == (if Ended(s.runs, g) then 1 else 0)
            && multiset(s.pushed) == multiset(s.read) + multiset(s.evicted) + multiset(s.core.queue)
            && (forall e :: e in s.evicted && Terminal(e) ==> e.generation < s.core.nextGen)
            && |s.core.queue| <= QUEUE_BOUND
            && (s.sending.Some? && s.sending.value.phase == Push ==>
                  Apply(s, SendOn).pushed == s.pushed + [s.sending.value.event])
  {
    hide RunAll;
    ReachableIsSound(steps);
    hide Terminals, Ended, Underway;
  }

  lemma {:induction false} TrackedEvents(s: State)
    requires Sound(s) && s.control == Idle && s.active != 0
    ensures s.active == s.core.nextGen && s.active in s.runs
    ensures Terminals(multiset(s.core.queue), s.active) + Underway(s.sending, s.active) ==
            if Ended(s.runs, s.active) then 1 else 0
  {
    var g := s.active;
    assert Terminals(multiset(s.pushed), g) + Underway(s.sending, g) == if Ended(s.runs, g) then 1 else 0;
    assert Terminals(multiset(s.evicted), g) == 0 by {
      assert multiset(s.evicted)[Event(Completed, g)] > 0 ==> Event(Completed, g) in s.evicted;
      assert multiset(s.evicted)[Event(Failed, g)] > 0 ==> Event(Failed, g) in s.evicted;
    }
  }

  // The run the user interface follows is the newest one, so an event that applies is never an older run's; and once
  // that run has ended by itself, exactly one event saying so is still to be read.
  lemma {:induction false} TrackedRunIsTold(steps: seq<Step>)
    requires var s := RunAll(FRESH, steps); s.control == Idle && s.active != 0
    ensures var s := RunAll(FRESH, steps);
            && s.active == s.core.nextGen && s.active in s.runs
            && (forall e: Event :: EventApplies(s.active, e) ==> e.generation == s.core.nextGen)
            && Terminals(multiset(s.core.queue), s.active) + Underway(s.sending, s.active) ==
               if Ended(s.runs, s.active) then 1 else 0
  {
    hide RunAll, Sound, Terminals, Underway, Ended;
    ReachableIsSound(steps);
    TrackedEvents(RunAll(FRESH, steps));
  }

  // Generations only grow.
  lemma {:induction false} LaunchIsNewest(steps: seq<Step>)
    ensures var s := RunAll(FRESH, steps);
            var t := Apply(s, Launch);
            t != s ==> t.core.current == Some(t.core.nextGen) && forall g :: g in s.runs ==> g < t.core.nextGen
  {
    hide RunAll;
    ReachableIsSound(steps);
  }

  function Reads(n: nat): (r: seq<Step>)
    ensures |r| == n
  {
    if n == 0 then [] else [Read] + Reads(n - 1)
  }

  // Reading on from there, the interface learns of the end within the length of the queue.
  lemma {:induction false} EndIsRead(s: State, k: nat)
    requires s.control == Idle && s.active != 0 && k < |s.core.queue|
    requires Terminal(s.core.queue[k]) && s.core.queue[k].generation == s.active
    requires forall i :: 0 <= i < k ==> !(Terminal(s.core.queue[i]) && s.core.queue[i].generation == s.active)
    ensures var t := RunAll(s, Reads(k + 1));
            if s.core.queue[k].kind == Completed then t.control == WantsPlay else t.control == Idle && t.active == 0
    decreases k
  {
    var steps := Reads(k + 1);
    var t := Apply(s, Read);
    assert steps[0] == Read && steps[1..] == Reads(k);
    assert RunAll(s, steps) == RunAll(t, Reads(k));
    if k > 0 {
      assert forall i :: 0 <= i < k ==> t.core.queue[i] == s.core.queue[i + 1];
      EndIsRead(t, k - 1);
    }
  }

  function Sends(n: nat): (r: seq<Step>)
    ensures |r| == n && forall x :: x in r ==> x == SendOn
  {
    if n == 0 then [] else [SendOn] + Sends(n - 1)
  }

  function Rank(sending: Option<Sending>): nat {
    if sending.None? then 0
    else match sending.value.phase
      case Try => 3
      case Evict => 2
      case Push => 1
  }

  // A send that is underway needs at most three steps of its own, nobody else's.
  lemma {:induction false} SendFinishes(s: State) returns (n: nat)
    requires Sound(s)
    ensures n <= Rank(s.sending)
    ensures var t := RunAll(s, Sends(n));
      && Sound(t) && t.sending.None? && t.control == s.control && t.active == s.active && t.runs == s.runs
    decreases Rank(s.sending)
  {
    if s.sending.None? {
      n := 0;
    } else {
      var t := Apply(s, SendOn);
      StepSound(s, SendOn);
      SendProgresses(s);
      hide Sound, Apply, Rank;
      n := SendFinishes(t);
      n := n + 1;
      assert Sends(n)[0] == SendOn && Sends(n)[1..] == Sends(n - 1);
    }
  }

  lemma {:induction false} SendProgresses(s: State)
    requires Sound(s) && s.sending.Some?
    ensures var t := Apply(s, SendOn);
      && Rank(t.sending) < Rank(s.sending) && t.control == s.control && t.active == s.active && t.runs == s.runs
  {
    assert Queued(s);
    hide Numbered, Speaking, SentOnce, Conserved, KeptNewest, Follows;
  }

  // The first event that says how a run ended.
  lemma {:induction false} FirstTerminal(q: seq<Event>, g: nat) returns (k: nat)
    requires Terminals(multiset(q), g) > 0
    ensures k < |q| && Terminal(q[k]) && q[k].generation == g
    ensures forall i :: 0 <= i < k ==> !(Terminal(q[i]) && q[i].generation == g)
  {
    assert exists e :: e in q && Terminal(e) && e.generation == g by {
      assert multiset(q)[Event(Completed, g)] > 0 ==> Event(Completed, g) in q;
      assert multiset(q)[Event(Failed, g)] > 0 ==> Event(Failed, g) in q;
    }
    k := 0;
    while !(Terminal(q[k]) && q[k].generation == g)
      invariant k < |q| && forall i :: 0 <= i < k ==> !(Terminal(q[i]) && q[i].generation == g)
      decreases |q| - k
    {
      k := k + 1;
    }
  }

  lemma {:induction false} RunConcat(s: State, a: seq<Step>, b: seq<Step>)
    ensures RunAll(s, a + b) == RunAll(RunAll(s, a), b)
    decreases |a|
  {
    if a == [] {
      assert a + b == b;
    } else {
      RunConcat(Apply(s, a[0]), a[1..], b);
      assert (a + b)[0] == a[0] && (a + b)[1..] == a[1..] + b;
    }
  }

  // ---- How a run ended ----

  // A terminal event names a run that has exited, and says whether it exited cleanly.
  predicate True(runs: map<nat, Run>, e: Event) {
    Terminal(e) ==>
      && e.generation in runs && runs[e.generation].exited.Some?
      && (e.kind == Completed <==> runs[e.generation].exited == Some(false))
      && (e.kind == Failed <==> runs[e.generation].exited == Some(true))
  }

  predicate AllTrue(runs: map<nat, Run>, events: seq<Event>) {
    forall i :: 0 <= i < |events| ==> True(runs, events[i])
  }

  predicate Truthful(s: State) {
    AllTrue(s.runs, s.pushed) && AllTrue(s.runs, s.core.queue) && (s.sending.Some? ==> True(s.runs, s.sending.value.event))
  }

  // The exit of a run is noted once.
  predicate ExitsStay(before: map<nat, Run>, after: map<nat, Run>) {
    forall g :: g in before && before[g].exited.Some? ==> g in after && after[g].exited == before[g].exited
  }

  lemma {:induction false} StillTrue(before: map<nat, Run>, after: map<nat, Run>, events: seq<Event>)
    requires ExitsStay(before, after) && AllTrue(before, events)
    ensures AllTrue(after, events)
  {
    forall i | 0 <= i < |events| ensures True(after, events[i]) {
      assert True(before, events[i]);
    }
  }

  lemma {:induction false} StepKeepsExits(s: State, step: Step)
    requires Numbered(s)
    ensures ExitsStay(s.runs, Apply(s, step).runs)
  {
    hide SendStep;
  }

  // Sending moves the event that is underway, and drops from the front.
  lemma {:induction false} SendingTrue(runs: map<nat, Run>, c: Core, sending: Sending)
    requires AllTrue(runs, c.queue) && True(runs, sending.event)
    ensures var t := SendStep(c, sending);
      && AllTrue(runs, t.core.queue) && AllTrue(runs, t.pushed) && (t.sending.Some? ==> True(runs, t.sending.value.event))
  {
    hide True;
  }

  lemma {:induction false} SettlingTrue(s: State, run: nat)
    requires run in s.runs && s.runs[run].exited.Some?
    ensures var (core, event) := SettledCore(s.core, run, s.runs[run].stopping, s.runs[run].exited.value);
            core.queue == s.core.queue && (event.Some? ==> True(s.runs, event.value))
  {
  }

  lemma {:induction false} StepTruthful(s: State, step: Step)
    requires Numbered(s) && Truthful(s)
    ensures Truthful(Apply(s, step))
  {
    StepKeepsExits(s, step);
    var t := Apply(s, step);
    StillTrue(s.runs, t.runs, s.pushed);
    StillTrue(s.runs, t.runs, s.core.queue);
    if s.sending.Some? {
      StillTrue(s.runs, t.runs, [s.sending.value.event]);
      assert True(t.runs, [s.sending.value.event][0]);
    }
    if step.SendOn? && s.sending.Some? {
      SendingTrue(s.runs, s.core, s.sending.value);
    }
    if step.Settle? && step.run in s.runs && s.runs[step.run].exited.Some? {
      SettlingTrue(s, step.run);
      var event := SettledCore(s.core, step.run, s.runs[step.run].stopping, s.runs[step.run].exited.value).1;
      if event.Some? {
        StillTrue(s.runs, t.runs, [event.value]);
        assert True(t.runs, [event.value][0]);
      }
    }
    if step.Line? {
      assert forall kind, run :: kind == Progress || kind == Duration ==> True(t.runs, Event(kind, run));
    }
    hide True, SendStep, SettledCore, Numbered, ExitsStay;
  }

  lemma {:induction false} SoundIsNumbered(s: State)
    requires Sound(s)
    ensures Numbered(s)
  {
  }

  lemma {:induction false} RunsAreTruthful(s: State, steps: seq<Step>)
    requires Sound(s) && Truthful(s)
    ensures Truthful(RunAll(s, steps))
    decreases |steps|
  {
    hide Sound, Truthful, Apply, Numbered;
    if steps != [] {
      StepSound(s, steps[0]);
      SoundIsNumbered(s);
      StepTruthful(s, steps[0]);
      RunsAreTruthful(Apply(s, steps[0]), steps[1..]);
    }
  }

  // In every reachable state, every terminal event that was sent or is underway tells how its run exited.
  lemma {:induction false} EndsAreTold(steps: seq<Step>)
    ensures Truthful(RunAll(FRESH, steps))
  {
    hide RunAll;
    assert Truthful(FRESH);
    RunsAreSound(FRESH, []);
    RunsAreTruthful(FRESH, steps);
  }

  // However the state was reached: once the run the interface follows has ended by itself, finishing the send underway
  // and reading on tells the interface, within the length of the queue: it goes on to the next track if the run exited
  // cleanly, and stops if it failed.
  lemma {:induction false} EndReachesInterface(steps: seq<Step>) returns (sent: nat, taken: nat)
    requires var s := RunAll(FRESH, steps); s.control == Idle && s.active != 0 && Ended(s.runs, s.active)
    ensures sent <= 3 && taken <= QUEUE_BOUND
    ensures var s := RunAll(FRESH, steps);
            var t := RunAll(s, Sends(sent) + Reads(taken));
      && s.active in s.runs && s.runs[s.active].exited.Some?
      && (s.runs[s.active].exited == Some(false) ==> t.control == WantsPlay)
      && (s.runs[s.active].exited == Some(true) ==> t.control == Idle && t.active == 0)
  {
    hide *;
    ReachableIsSound(steps);
    EndsAreTold(steps);
    var s := RunAll(FRESH, steps);
    sent := SendFinishes(s);
    RunsAreTruthful(s, Sends(sent));
    AtMostThree(s.sending);
    var t := RunAll(s, Sends(sent));
    TrackedEvents(t);
    NothingUnderway(t.sending, t.active);
    BoundedQueue(t);
    var k := FirstTerminal(t.core.queue, t.active);
    QueuedIsTrue(t, k);
    EndIsRead(t, k);
    taken := k + 1;
    RunConcat(s, Sends(sent), Reads(taken));
  }

  lemma {:induction false} QueuedIsTrue(s: State, k: nat)
    requires Truthful(s) && k < |s.core.queue| && Terminal(s.core.queue[k])
    ensures var e := s.core.queue[k];
      && e.generation in s.runs && s.runs[e.generation].exited.Some?
      && (e.kind == Completed <==> s.runs[e.generation].exited == Some(false))
      && (e.kind == Failed <==> s.runs[e.generation].exited == Some(true))
  {
    assert True(s.runs, s.core.queue[k]);
  }

  lemma {:induction false} AtMostThree(sending: Option<Sending>)
    ensures Rank(sending) <= 3
  {
  }

  lemma {:induction false} NothingUnderway(sending: Option<Sending>, g: nat)
    ensures sending.None? ==> Underway(sending, g) == 0
  {
  }

  lemma {:induction false} BoundedQueue(s: State)
    requires Sound(s)
    ensures |s.core.queue| <= QUEUE_BOUND
  {
    assert Queued(s);
  }

  // ---- Pausing ----

  // A toggle that is underway knows whether its run is paused, and nothing that is not running is paused.
  predicate PauseKnown(s: State) {
    && (s.control.Pausing? && s.core.current == Some(s.control.run) ==> s.control.wasPaused == s.core.paused)
    && (s.core.current.None? ==> !s.core.paused)
  }

  lemma {:induction false} StepKeepsPause(s: State, step: Step)
    requires Sound(s) && PauseKnown(s)
    ensures PauseKnown(Apply(s, step))
  {
    assert Numbered(s);
    hide Queued, Speaking, SentOnce, Conserved, KeptNewest, Follows;
  }

  lemma {:induction false} RunsKeepPause(s: State, steps: seq<Step>)
    requires Sound(s) && PauseKnown(s)
    ensures PauseKnown(RunAll(s, steps))
    decreases |steps|
  {
    hide Sound, PauseKnown, Apply;
    if steps != [] {
      StepSound(s, steps[0]);
      StepKeepsPause(s, steps[0]);
      RunsKeepPause(Apply(s, steps[0]), steps[1..]);
    }
  }

  // In every reachable state: the end of a toggle whose signal went out turns the pause of its run on or off, nothing
  // else does while that run goes on, and any other run starts unpaused.
  lemma {:induction false} PauseToggles(steps: seq<Step>, step: Step)
    ensures var s := RunAll(FRESH, steps);
            var t := Apply(s, step);
            if step == EndPause(true) && s.control.Pausing? && s.sending.None? && s.core.current == Some(s.control.run)
            then t.core.paused == !s.core.paused && t.core.current == s.core.current && t.control == Idle
            else if t.core.current == s.core.current then t.core.paused == s.core.paused
            else !t.core.paused
  {
    hide *;
    ReachableIsSound(steps);
    FreshKnowsPause();
    ReachableIsSound([]);
    RunsKeepPause(FRESH, steps);
    PauseStep(RunAll(FRESH, steps), step);
  }

  lemma {:induction false} FreshKnowsPause()
    ensures PauseKnown(FRESH) && RunAll(FRESH, []) == FRESH
  {
  }

  lemma {:induction false} PauseStep(s: State, step: Step)
    requires PauseKnown(s) && Sound(s)
    ensures var t := Apply(s, step);
            if step == EndPause(true) && s.control.Pausing? && s.sending.None? && s.core.current == Some(s.control.run)
            then t.core.paused == !s.core.paused && t.core.current == s.core.current && t.control == Idle
            else if t.core.current == s.core.current then t.core.paused == s.core.paused
            else !t.core.paused
  {
    assert Numbered(s);
    hide Sound, Numbered;
  }

  // Stopping a run, for good or for another track, moves the generation on: no event of it applies any more.
  lemma {:induction false} StopMovesOn(steps: seq<Step>, step: Step)
    requires var s := RunAll(FRESH, steps); s.core.current.Some? && Apply(s, step).core.current.None? && !step.Settle?
    ensures var s := RunAll(FRESH, steps);
            var t := Apply(s, step);
      && t.core.nextGen > s.core.current.value && s.core.current.value in t.runs && t.runs[s.core.current.value].stopping
      && forall e: Event :: e.generation in t.runs ==> !EventApplies(t.core.nextGen, e)
  {
    ReachableIsSound(steps);
    var s := RunAll(FRESH, steps);
    assert Numbered(s);
    hide RunAll, Queued, Speaking, SentOnce, Conserved, KeptNewest, Follows;
  }
}
