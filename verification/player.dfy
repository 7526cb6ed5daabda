/**
  Supervision of the playing process, App/music-player/player.go: generations,
  a queue of 128 events that loses only what does not matter, and the steps of
  the goroutines that share them. A run is named by its generation.
 */
module Player {
  import opened Options

  const QUEUE_BOUND := 128

  datatype Kind = Progress | Duration | Completed | Failed

  datatype Event = Event(kind: Kind, generation: nat)

  predicate Terminal(e: Event) {
    e.kind == Completed || e.kind == Failed
  }

  // What the lock mu guards.
  datatype Core = Core(current: Option<nat>, nextGen: nat, paused: bool, queue: seq<Event>)

  // ---- The locked sections ----

  // The locked part of detachAndStop, and the run it stops.
  function DetachedCore(c: Core): (Core, Option<nat>) {
    (c.(current := None, nextGen := if c.current.Some? then c.nextGen + 1 else c.nextGen, paused := false), c.current)
  }

  function LaunchedCore(c: Core): Core {
    c.(nextGen := c.nextGen + 1, current := Some(c.nextGen + 1), paused := false)
  }

  // The locked part of wait before the send.
  function SettledCore(c: Core, run: nat, stopping: bool, failed: bool): (Core, Option<Event>) {
    if c.current != Some(run) || stopping then (c, None)
    else (c.(current := None, paused := false), Some(Event(if failed then Failed else Completed, run)))
  }

  // sendLocked in its three looks at the queue; the consumer may read in between.
  datatype Phase = Try | Evict | Push

  datatype Sending = Sending(event: Event, phase: Phase)

  datatype Sent = Sent(core: Core, sending: Option<Sending>, pushed: seq<Event>, evicted: seq<Event>)

  function SendStep(c: Core, s: Sending): Sent {
    match s.phase
    case Try =>
      if |c.queue| < QUEUE_BOUND then Sent(c.(queue := c.queue + [s.event]), None, [s.event], [])
      else if s.event.kind == Progress then Sent(c, None, [], [])
      else Sent(c, Some(s.(phase := Evict)), [], [])
    case Evict =>
      if c.queue == [] then Sent(c, Some(s.(phase := Push)), [], [])
      else Sent(c.(queue := c.queue[1..]), Some(s.(phase := Push)), [], [c.queue[0]])
    case Push =>
      if |c.queue| < QUEUE_BOUND then Sent(c.(queue := c.queue + [s.event]), None, [s.event], [])
      else Sent(c, Some(s), [], [])
  }

  // What is left after the consumer has read n events.
  function Unread(queue: seq<Event>, n: nat): (q: seq<Event>)
    ensures |q| <= |queue|
  {
    if n >= |queue| then [] else queue[n..]
  }

  class PlayerObject {
    var current: Option<nat>
    var nextGen: nat
    var paused: bool
    var queue: seq<Event>

    function View(): Core
      reads this
    {
      Core(current, nextGen, paused, queue)
    }

    constructor ()
      ensures View() == Core(None, 0, false, [])
    {
      current, nextGen, paused, queue := None, 0, false, [];
    }

    method Detach() returns (run: Option<nat>)
      modifies this
      ensures (View(), run) == DetachedCore(old(View()))
    {
      run := current;
      if run.Some? {
        current := None;
        nextGen := nextGen + 1;
      }
      paused := false;
    }

    method Launch() returns (generation: nat)
      modifies this
      ensures View() == LaunchedCore(old(View())) && current == Some(generation)
    {
      nextGen := nextGen + 1;
      generation := nextGen;
      current := Some(generation);
      paused := false;
    }

    method Settle(run: nat, stopping: bool, failed: bool) returns (event: Option<Event>)
      modifies this
      ensures (View(), event) == SettledCore(old(View()), run, stopping, failed)
    {
      if current != Some(run) || stopping {
        return None;
      }
      current := None;
      paused := false;
      var kind := Completed;
      if failed {
        kind := Failed;
      }
      return Some(Event(kind, run));
    }

    // sendLocked: it never waits, only progress is given up for lack of room, and only the oldest event that is left
    // makes room. The consumer may read at any time: first events between the attempts, second before the last one.
    method SendLocked(event: Event, first: nat, second: nat) returns (sent: bool, evicted: seq<Event>)
      requires |queue| <= QUEUE_BOUND
      modifies this`queue
      ensures |queue| <= QUEUE_BOUND
      ensures sent <==> |old(queue)| < QUEUE_BOUND || event.kind != Progress
      ensures !sent ==> queue == old(queue) && evicted == []
      ensures sent && |old(queue)| < QUEUE_BOUND ==> queue == old(queue) + [event] && evicted == []
      ensures sent && |old(queue)| == QUEUE_BOUND ==>
                var left := Unread(old(queue), first);
                && evicted == left[..|left| - |Unread(left, 1)|] && |evicted| <= 1
                && queue == Unread(Unread(left, 1), second) + [event]
    {
      evicted := [];
      if |queue| < QUEUE_BOUND {
        queue := queue + [event];
        return true, [];
      }
      if event.kind == Progress {
        return false, [];
      }
      queue := Unread(queue, first);
      if |queue| > 0 {
        evicted := [queue[0]];
        queue := queue[1..];
      }
      queue := Unread(queue, second);
      queue := queue + [event];
      sent := true;
    }
  }

  // ---- All interleavings ----

  datatype Run = Run(exited: Option<bool>, stopping: bool, settled: bool)

  // Where the user interface stands: it alone plays, stops, pauses and reads.
  datatype Control = Idle | WantsPlay | Waiting(run: nat, play: bool) | Starting | Adopting |
                     Pausing(run: nat, wasPaused: bool) | Closed

  datatype State = State(
    core: Core, runs: map<nat, Run>, sending: Option<Sending>, control: Control, active: nat,
    pushed: seq<Event>, read: seq<Event>, evicted: seq<Event>)

  datatype Step =
    | BeginPlay
    | BeginStop
    | Reaped
    | StartFails
    | Launch
    | Adopt
    | BeginPause
    | EndPause(signalled: bool)
    | Exit(run: nat, failed: bool)
    | Settle(run: nat)
    | Line(run: nat, kind: Kind)
    | SendOn
    | Read

  const FRESH := State(Core(None, 0, false, []), map[], None, Idle, 0, [], [], [])

  predicate EventApplies(active: nat, e: Event) {
    active != 0 && e.generation == active
  }

  function Detach(s: State, play: bool): State {
    var (core, run) := DetachedCore(s.core);
    if run.None? || run.value !in s.runs then s.(core := core, control := if play then Starting else Closed)
    else
      s.(core := core, runs := s.runs[run.value := s.runs[run.value].(stopping := true)],
         control := Waiting(run.value, play))
  }

  function Apply(s: State, step: Step): State {
    var free := s.sending.None?;
    match step
    case BeginPlay => if (s.control == Idle || s.control == WantsPlay) && free then Detach(s, true) else s
    case BeginStop => if s.control == Idle && free then Detach(s, false) else s
    case Reaped =>
      if s.control.Waiting? && s.control.run in s.runs && s.runs[s.control.run].exited.Some?
      then s.(control := if s.control.play then Starting else Closed) else s
    case StartFails => if s.control == Starting then s.(active := 0, control := Idle) else s
    case Launch =>
      if s.control == Starting && free then
        var core := LaunchedCore(s.core);
        s.(core := core, runs := s.runs[core.nextGen := Run(None, false, false)], control := Adopting)
      else s
    case Adopt => if s.control == Adopting && free then s.(active := s.core.nextGen, control := Idle) else s
    case BeginPause =>
      if s.control == Idle && free && s.core.current.Some?
      then s.(control := Pausing(s.core.current.value, s.core.paused)) else s
    case EndPause(signalled) =>
      if !s.control.Pausing? then s
      else if !signalled then s.(control := Idle)
      else if !free then s
      else if s.core.current == Some(s.control.run)
      then s.(core := s.core.(paused := !s.control.wasPaused), control := Idle)
      else s.(control := Idle)
    case Exit(run, failed) =>
      if run in s.runs && s.runs[run].exited.None?
      then s.(runs := s.runs[run := s.runs[run].(exited := Some(failed))]) else s
    case Settle(run) =>
      if run in s.runs && s.runs[run].exited.Some? && !s.runs[run].settled && free then
        var (core, event) := SettledCore(s.core, run, s.runs[run].stopping, s.runs[run].exited.value);
        s.(core := core, runs := s.runs[run := s.runs[run].(settled := true)],
           sending := if event.Some? then Some(Sending(event.value, Try)) else None)
      else s
    case Line(run, kind) =>
      if run in s.runs && free && s.core.current == Some(run) && !s.runs[run].stopping &&
         (kind == Progress || kind == Duration)
      then s.(sending := Some(Sending(Event(kind, run), Try))) else s
    case SendOn =>
      if free then s
      else
        var t := SendStep(s.core, s.sending.value);
        s.(core := t.core, sending := t.sending, pushed := s.pushed + t.pushed, evicted := s.evicted + t.evicted)
    case Read =>
      if s.control != Idle || s.core.queue == [] then s
      else
        var e := s.core.queue[0];
        var t := s.(core := s.core.(queue := s.core.queue[1..]), read := s.read + [e]);
        if !EventApplies(s.active, e) then t
        else if e.kind == Completed then t.(control := WantsPlay)
        else if e.kind == Failed then t.(active := 0)
        else t
  }

  function RunAll(s: State, steps: seq<Step>): State
    decreases |steps|
  {
    if steps == [] then s else RunAll(Apply(s, steps[0]), steps[1..])
  }
}
