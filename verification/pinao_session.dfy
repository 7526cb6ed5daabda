/**
  A whole session with the sequencer object: what its loop feeds it, and what
  holds of it afterwards.
 */
module PinaoSession {
  import opened PinaoSong
  import opened PinaoModel
  import opened PinaoRuns
  import opened PinaoSequencer

  // The main loop of Pinao/main.go, as far as it touches the sequencer: every key event, tick, stall and export of a
  // run from a valid song leaves it sound, in the state the run describes.
  method Play(song: Song, steps: seq<Step>) returns (sequencer: Sequencer)
    requires ValidSong(song)
    ensures Sound(NewModel(song)) && sequencer.Valid() && Sound(sequencer.View())
    ensures sequencer.View() == Run(NewModel(song), steps)
    ensures DistinctSong(song) ==> DistinctSong(sequencer.View().song)
  {
    hide *;
    NewModelSound(song);
    RunsKeepSound(NewModel(song), steps);
    sequencer := new Sequencer(song);
    assert steps[0..] == steps;
    for i := 0 to |steps|
      invariant sequencer.Valid() && fresh(sequencer) && fresh(sequencer.book) && fresh(sequencer.transport)
      invariant fresh(sequencer.transport.notes) && fresh(sequencer.transport.active) && fresh(sequencer.captures)
      invariant Sound(sequencer.View()) && Run(sequencer.View(), steps[i..]) == Run(NewModel(song), steps)
    {
      ghost var before := sequencer.View();
      RunUnfold(before, steps[i..]);
      assert steps[i..][0] == steps[i] && steps[i..][1..] == steps[i + 1..];
      ApplySound(before, steps[i]);
      Feed(sequencer, steps[i]);
    }
    assert steps[|steps|..] == [];
    RunUnfold(sequencer.View(), []);
    SameSong(song);
  }

  lemma {:induction false} SameSong(song: Song)
    ensures NewModel(song).song == song
  {
  }

  lemma {:induction false} RunUnfold(m: Model, steps: seq<Step>)
    requires Sound(m)
    ensures steps == [] ==> Run(m, steps) == m
    ensures steps != [] ==> Sound(Apply(m, steps[0])) && Run(m, steps) == Run(Apply(m, steps[0]), steps[1..])
  {
    if steps != [] {
      ApplySound(m, steps[0]);
    }
    hide Sound, Apply;
  }

  // One turn of the loop.
  method Feed(sequencer: Sequencer, step: Step)
    requires sequencer.Valid() && Sound(sequencer.View())
    modifies sequencer, sequencer.book, sequencer.transport, sequencer.transport.notes, sequencer.transport.active,
             sequencer.captures
    ensures sequencer.Valid() && sequencer.View() == Apply(old(sequencer.View()), step)
  {
    hide *;
    SoundParts(sequencer.View());
    ApplyCases(sequencer.View(), step);
    match step {
      case Press(key, now) =>
        var cmds, action := sequencer.Handle(key, now);
      case Tick(now) =>
        var cmds := sequencer.Tick(now);
      case Stalled =>
        sequencer.CancelPageGesture();
        sequencer.ReleaseAll();
      case ExportBegins =>
        sequencer.CancelPageGesture();
        sequencer.Stop();
        sequencer.ReleaseAll();
    }
  }

  lemma {:induction false} ApplyCases(m: Model, step: Step)
    requires Sound(m) && Ready(m)
    ensures Apply(m, step) == match step
      case Press(key, now) => Handled(m, key, now).0
      case Tick(now) => Ticked(m, now).0
      case Stalled => GestureCancelled(m).(held := {})
      case ExportBegins => Stopped(GestureCancelled(m)).(held := {})
  {
    hide Handled, Ticked, GestureCancelled, Stopped, Sound, Ready;
  }
}
