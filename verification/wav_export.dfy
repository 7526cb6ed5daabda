/**
  The WAV export of the sequencer (Pinao/audio.go): a loop over frames in
  chunks that must meet every step of the song at its exact frame and write as
  many bytes as the header says. What the synthesizer makes of the commands is
  not part of this model.
 */
module WavExport {
  import opened Division
  import opened PinaoSong
  import opened PinaoTransport
  import opened PinaoPlaying
  import opened Options

  const SAMPLE_RATE := 48_000
  const PER_MINUTE := 48_000 * 60
  const CHUNK := 480

  // A step lasts PerMinute / (2 * bpm) frames; it starts at the first whole frame.
  function StepStart(bpm: int, i: int): int
    requires bpm > 0
  {
    (i * PER_MINUTE + (bpm * 2 - 1)) / (bpm * 2)
  }

  function Frames(bpm: int, total: int): int
    requires bpm > 0
  {
    PER_MINUTE * total / (bpm * 2) + SAMPLE_RATE
  }

  // A frame belongs to step i when it is at or after the start of i and before that of the next.
  lemma {:induction false} StepOfFrame(bpm: int, offset: int, i: int)
    requires bpm > 0
    ensures offset * (bpm * 2) / PER_MINUTE >= i <==> offset >= StepStart(bpm, i)
  {
    AtLeast(offset * (bpm * 2), PER_MINUTE, i);
    CeilingIs(i * PER_MINUTE, bpm * 2, offset);
  }

  lemma {:induction false} CeilingIs(n: int, d: int, k: int)
    requires d > 0
    ensures k * d >= n <==> k >= (n + (d - 1)) / d
  {
    var q := Quotient(n + (d - 1), d);
    if k >= q {
      Scale(q, k, d);
    } else {
      Scale(k + 1, q, d);
      assert (k + 1) * d == k * d + d;
    }
  }

  lemma {:induction false} StepsGrow(bpm: int, i: int)
    requires 60 <= bpm <= 180
    ensures StepStart(bpm, i) + 8000 <= StepStart(bpm, i + 1) && StepStart(bpm, 0) == 0
  {
    var d := bpm * 2;
    var a, b := StepStart(bpm, i), StepStart(bpm, i + 1);
    CeilingIs(i * PER_MINUTE, d, a);
    CeilingIs(i * PER_MINUTE, d, a - 1);
    CeilingIs((i + 1) * PER_MINUTE, d, a + 7999);
    assert (a - 1) * d < i * PER_MINUTE;
    assert (a + 7999) * d == (a - 1) * d + 8000 * d;
    CeilingIs(0, d, 0);
    CeilingIs(0, d, -1);
  }

  lemma {:induction false} StartsBefore(bpm: int, i: int, k: int)
    requires 60 <= bpm <= 180 && i <= k
    ensures StepStart(bpm, i) + 8000 * (k - i) <= StepStart(bpm, k)
    decreases k - i
  {
    if i < k {
      StepsGrow(bpm, i);
      StartsBefore(bpm, i + 1, k);
    }
  }

  // The loop ends within the promised frames, and their bytes fit the header's 32 bits.
  lemma {:induction false} EndFits(bpm: int, total: int)
    requires 60 <= bpm <= 180 && 0 <= total <= MAX_PAGES * STEPS
    ensures 0 <= StepStart(bpm, total) < Frames(bpm, total)
    ensures 36 + Frames(bpm, total) * 4 < 0x1_0000_0000
  {
    var d := bpm * 2;
    var q := Quotient(PER_MINUTE * total, d);
    CeilingIs(total * PER_MINUTE, d, q + 1);
    StepsGrow(bpm, 0);
    StartsBefore(bpm, 0, total);
    assert (q + 1) * d == q * d + d;
    assert q * d <= PER_MINUTE * 1024;
    AtLeast(PER_MINUTE * total, d, 24_576_001);
    assert 24_576_001 * d >= 24_576_001 * 120;
  }

  // ---- What is played ----

  datatype Sound = Cell(frame: int, index: nat, commands: seq<Command>) | AllOff(frame: int)

  // The cell of step i, planned after all the cells before it.
  function CellSound(s: Song, i: nat): Sound
    requires ValidSong(s) && i < Total(s)
  {
    CellFits(s, i);
    Cell(StepStart(s.bpm, i), i, Commands(PlayFrom(UNSET, s, 0, i), CellAt(s, i), i, true))
  }

  function CellSounds(s: Song, n: nat): seq<Sound>
    requires ValidSong(s) && n <= Total(s)
  {
    if n == 0 then [] else CellSounds(s, n - 1) + [CellSound(s, n - 1)]
  }

  lemma {:induction false} CellSoundAt(s: Song, n: nat, i: nat)
    requires ValidSong(s) && i < n <= Total(s)
    ensures |CellSounds(s, n)| == n && CellSounds(s, n)[i] == CellSound(s, i)
  {
    hide ValidSong, CellSound, Total;
    CellSoundsSize(s, n - 1);
    if i < n - 1 {
      CellSoundAt(s, n - 1, i);
    }
  }

  lemma {:induction false} CellSoundsSize(s: Song, n: nat)
    requires ValidSong(s) && n <= Total(s)
    ensures |CellSounds(s, n)| == n
  {
    hide ValidSong, CellSound, Total;
    if n > 0 {
      CellSoundsSize(s, n - 1);
    }
  }

  // Every step once, in order, at its first frame; then all notes off at the end of the song.
  function SongSounds(s: Song): seq<Sound>
    requires ValidSong(s)
  {
    CellSounds(s, Total(s)) + [AllOff(StepStart(s.bpm, Total(s)))]
  }

  datatype Wav = Wav(riffSize: int, dataSize: int, sounds: seq<Sound>, chunks: seq<nat>)

  function Sum(chunks: seq<nat>): nat {
    if chunks == [] then 0 else Sum(chunks[..|chunks| - 1]) + chunks[|chunks| - 1]
  }

  // ---- The loop ----

  // After the step last begun, up to the start of the next.
  predicate Between(bpm: int, total: int, step: int, offset: int)
    requires bpm > 0
  {
    && -1 <= step <= total
    && (step < 0 ==> offset == 0)
    && (0 <= step ==> StepStart(bpm, step) < offset)
    && (step < total ==> offset <= StepStart(bpm, step + 1))
  }

  // exportWAVContext, without the file: the sizes the header promises, what is played at which frame, and the chunks
  // written.
  method Export(song: Song) returns (wav: Option<Wav>)
    requires Shaped(song)
    ensures wav.Some? <==> ValidSong(song)
    ensures wav.Some? ==>
      && wav.value.sounds == SongSounds(song)
      && (forall k :: 0 <= k < |wav.value.chunks| ==> 1 <= wav.value.chunks[k] <= CHUNK)
      && wav.value.dataSize == 4 * Sum(wav.value.chunks) == 4 * Frames(song.bpm, Total(song))
      && wav.value.riffSize == 36 + wav.value.dataSize < 0x1_0000_0000
  {
    hide *;
    var valid := Validate(song);
    if !valid {
      return None;
    }
    SongFacts(song);
    var totalSteps := |song.pages| * 16;
    var loopFrames := 48_000 * 60 * totalSteps / (song.bpm * 2);
    var frames := loopFrames + 48_000;
    var transport := new LoopTransport();
    var sounds: seq<Sound> := [];
    var chunks: seq<nat> := [];
    var step, offset := -1, 0;
    LoopBegins(song);
    while offset < frames
      invariant 0 <= offset <= frames && Sum(chunks) == offset
      invariant Between(song.bpm, totalSteps, step, offset)
      invariant forall k :: 0 <= k < |chunks| ==> 1 <= chunks[k] <= 480
      invariant transport.Valid() && fresh(transport) && fresh(transport.notes) && fresh(transport.active)
      invariant Played(song, step, transport.View(), sounds)
      decreases frames - offset
    {
      var n := if 480 < frames - offset then 480 else frames - offset;
      var idx := StepAt(song.bpm, totalSteps, step, offset);
      if idx >= totalSteps {
        if step != totalSteps {
          SongDone(song, step, transport.View(), sounds, offset);
          sounds := sounds + [AllOff(offset)];
          step := totalSteps;
        }
        BetweenAfter(song.bpm, totalSteps, totalSteps, offset, n);
      } else {
        n := UpToBoundary(song.bpm, idx, offset, n);
        if idx != step {
          CellFits(song, idx);
          CellPlace(song, idx);
          PlayedBefore(song, step, transport.View(), sounds);
          var commands := transport.PlanCommands(song.pages[idx / 16][idx % 16], idx, true);
          NextCell(song, idx, offset, sounds, commands);
          sounds := sounds + [Cell(offset, idx, commands)];
          step := idx;
        }
        BetweenAfter(song.bpm, totalSteps, idx, offset, n);
      }
      ChunkAdded(chunks, n);
      chunks := chunks + [n];
      offset := offset + n;
    }
    LoopEnds(song, step, offset, transport.View(), sounds);
    wav := Some(Wav(36 + frames * 4, frames * 4, sounds, chunks));
  }

  // The step a frame belongs to.
  method StepAt(bpm: int, total: nat, ghost step: int, offset: nat) returns (idx: nat)
    requires 60 <= bpm <= 180 && Between(bpm, total, step, offset)
    ensures idx >= total ==> offset >= StepStart(bpm, total) && (step != total ==> step == total - 1 && offset == StepStart(bpm, total))
    ensures idx < total ==> step < total && StepStart(bpm, idx) <= offset < StepStart(bpm, idx + 1)
    ensures idx < total && idx != step ==> idx == step + 1 && offset == StepStart(bpm, idx)
  {
    hide Between, StepStart;
    var i := offset * (bpm * 2) / (48_000 * 60);
    FrameFacts(bpm, total, step, offset, i);
    idx := i;
  }

  // The chunk cut at the start of the next step.
  method UpToBoundary(bpm: int, idx: nat, offset: nat, limit: nat) returns (n: nat)
    requires 60 <= bpm <= 180 && limit >= 1 && StepStart(bpm, idx) <= offset < StepStart(bpm, idx + 1)
    ensures 1 <= n <= limit && offset + n <= StepStart(bpm, idx + 1)
  {
    hide StepStart;
    var boundary := ((idx + 1) * 48_000 * 60 + bpm * 2 - 1) / (bpm * 2);
    BoundaryIs(bpm, idx, boundary);
    var room := if boundary - offset > 1 then boundary - offset else 1;
    n := if room < limit then room else limit;
  }

  lemma {:induction false} CellPlace(s: Song, idx: nat)
    requires Shaped(s) && idx < Total(s)
    ensures idx / 16 < |s.pages| && idx % 16 < |s.pages[idx / 16]| && s.pages[idx / 16][idx % 16] == CellAt(s, idx)
  {
  }

  // What has been played when step is the last one begun.
  predicate Played(s: Song, step: int, p: Transport, sounds: seq<Sound>) {
    && ValidSong(s) && -1 <= step <= Total(s)
    && if step == Total(s) then sounds == SongSounds(s)
       else p == PlayFrom(UNSET, s, 0, step + 1) && sounds == CellSounds(s, step + 1)
  }

  lemma {:induction false} SongFacts(s: Song)
    requires ValidSong(s)
    ensures Shaped(s) && Total(s) == |s.pages| * 16 && 16 <= Total(s) <= 1024 && 60 <= s.bpm <= 180
    ensures VOICE_COUNT == 8 && CHUNK == 480 && Eight(UNSET)
    ensures Frames(s.bpm, Total(s)) == 48_000 * 60 * Total(s) / (s.bpm * 2) + 48_000
    ensures 36 + Frames(s.bpm, Total(s)) * 4 < 0x1_0000_0000 && Frames(s.bpm, Total(s)) > 0
  {
    assert SettingsOk(s);
    EndFits(s.bpm, Total(s));
    hide CellOk, CellAt, Before, StepStart;
  }

  lemma {:induction false} LoopBegins(s: Song)
    requires ValidSong(s) && 60 <= s.bpm <= 180 && 16 <= Total(s) == |s.pages| * 16
    ensures Sum([]) == 0 && Between(s.bpm, |s.pages| * 16, -1, 0) && Played(s, -1, UNSET, [])
  {
    StepsGrow(s.bpm, -1);
    hide ValidSong, StepStart;
  }

  // Where a frame inside the loop stands to the steps.
  lemma {:induction false} FrameFacts(bpm: int, total: nat, step: int, offset: nat, idx: int)
    requires 60 <= bpm <= 180 && Between(bpm, total, step, offset) && idx == offset * (bpm * 2) / (48_000 * 60)
    ensures idx >= 0
    ensures idx >= total ==> offset >= StepStart(bpm, total) && (step != total ==> step == total - 1 && offset == StepStart(bpm, total))
    ensures idx < total ==> step < total && StepStart(bpm, idx) <= offset < StepStart(bpm, idx + 1)
    ensures idx < total && idx != step ==> idx == step + 1 && offset == StepStart(bpm, idx)
  {
    StepOfFrame(bpm, offset, 0);
    StepOfFrame(bpm, offset, total);
    StepOfFrame(bpm, offset, idx);
    StepOfFrame(bpm, offset, idx + 1);
    StepOfFrame(bpm, offset, step);
    StepOfFrame(bpm, offset, step + 1);
    StepOfFrame(bpm, offset, step + 2);
    StepsGrow(bpm, step + 1);
    if step + 1 <= total {
      StartsBefore(bpm, step + 1, total);
    }
    hide StepStart;
  }

  lemma {:induction false} BoundaryIs(bpm: int, idx: int, boundary: int)
    requires bpm > 0 && boundary == ((idx + 1) * 48_000 * 60 + bpm * 2 - 1) / (bpm * 2)
    ensures boundary == StepStart(bpm, idx + 1)
  {
    assert (idx + 1) * 48_000 * 60 + bpm * 2 - 1 == (idx + 1) * PER_MINUTE + (bpm * 2 - 1);
  }

  // The chunk stops at the start of the next step at the latest.
  lemma {:induction false} BetweenAfter(bpm: int, total: nat, step: nat, offset: nat, n: nat)
    requires 60 <= bpm <= 180 && step <= total && n >= 1 && offset >= StepStart(bpm, step)
    requires step < total ==> offset + n <= StepStart(bpm, step + 1)
    ensures Between(bpm, total, step, offset + n)
  {
    hide StepStart;
  }

  lemma {:induction false} ChunkAdded(chunks: seq<nat>, n: nat)
    ensures Sum(chunks + [n]) == Sum(chunks) + n
  {
    assert (chunks + [n])[..|chunks|] == chunks;
  }

  lemma {:induction false} PlayedBefore(s: Song, step: int, p: Transport, sounds: seq<Sound>)
    requires Played(s, step, p, sounds) && step < Total(s)
    ensures step >= -1 && ValidSong(s) && p == PlayFrom(UNSET, s, 0, step + 1) && sounds == CellSounds(s, step + 1)
  {
    hide ValidSong, PlayFrom, CellSounds;
  }

  lemma {:induction false} NextCell(s: Song, idx: nat, offset: int, sounds: seq<Sound>, commands: seq<Command>)
    requires ValidSong(s) && 60 <= s.bpm <= 180 && idx < Total(s) && offset == StepStart(s.bpm, idx)
    requires |CellAt(s, idx)| <= VOICE_COUNT
    requires sounds == CellSounds(s, idx)
    requires Eight(UNSET) && commands == Commands(PlayFrom(UNSET, s, 0, idx), CellAt(s, idx), idx, true)
    ensures Played(s, idx, AfterCell(PlayFrom(UNSET, s, 0, idx), CellAt(s, idx), idx, true),
                   sounds + [Cell(offset, idx, commands)])
  {
    PlayStep(UNSET, s, 0, idx + 1);
    hide ValidSong, PlayFrom, AfterCell, Commands, StepStart;
  }

  lemma {:induction false} SongDone(s: Song, step: int, p: Transport, sounds: seq<Sound>, offset: int)
    requires Played(s, step, p, sounds) && step == Total(s) - 1 && s.bpm > 0 && offset == StepStart(s.bpm, Total(s))
    ensures Played(s, Total(s), p, sounds + [AllOff(offset)])
  {
    hide ValidSong, PlayFrom, CellSounds, StepStart;
  }

  // The loop cannot end before the song does.
  lemma {:induction false} LoopEnds(s: Song, step: int, offset: int, p: Transport, sounds: seq<Sound>)
    requires Played(s, step, p, sounds) && 60 <= s.bpm <= 180 && 0 <= Total(s) <= 1024
    requires Between(s.bpm, Total(s), step, offset) && offset == Frames(s.bpm, Total(s))
    ensures ValidSong(s) && sounds == SongSounds(s)
  {
    EndFits(s.bpm, Total(s));
    if step < Total(s) {
      StartsBefore(s.bpm, step + 1, Total(s));
    }
    hide ValidSong, PlayFrom, CellSounds, StepStart, SongSounds, Frames;
  }

  // The export in the song's own terms: the steps in order, each once, at ceil(i * 2880000 / (2 * bpm)), every frame
  // later than the one before and inside the file; the closing all-off once, last.
  lemma {:induction false} StepsInOrder(s: Song)
    requires ValidSong(s)
    ensures var log := SongSounds(s);
      && |log| == Total(s) + 1
      && (forall i :: 0 <= i < Total(s) ==> log[i].Cell? && log[i].index == i)
      && log[Total(s)].AllOff?
      && (forall i :: 0 <= i <= Total(s) ==> IsStepFrame(s.bpm, i, log[i].frame) && 0 <= log[i].frame < Frames(s.bpm, Total(s)))
      && (forall i :: 0 <= i < Total(s) ==> log[i].frame < log[i + 1].frame)
  {
    hide *;
    SongFacts(s);
    LogSize(s);
    var log := SongSounds(s);
    forall i | 0 <= i <= Total(s)
      ensures IsStepFrame(s.bpm, i, log[i].frame) && 0 <= log[i].frame < Frames(s.bpm, Total(s))
      ensures i < Total(s) ==> log[i].Cell? && log[i].index == i
    {
      LogAt(s, i);
      FrameInside(s.bpm, i, Total(s));
    }
    forall i | 0 <= i < Total(s) ensures log[i].frame < log[i + 1].frame {
      LogAt(s, i);
      LogAt(s, i + 1);
      StepsGrow(s.bpm, i);
    }
    LogAt(s, Total(s));
  }

  lemma {:induction false} LogSize(s: Song)
    requires ValidSong(s)
    ensures |SongSounds(s)| == Total(s) + 1
  {
    CellSoundsSize(s, Total(s));
    hide ValidSong, StepStart, CellSounds;
  }

  lemma {:induction false} LogAt(s: Song, i: nat)
    requires ValidSong(s) && s.bpm > 0 && i <= Total(s) && |SongSounds(s)| == Total(s) + 1
    ensures SongSounds(s)[i].frame == StepStart(s.bpm, i)
    ensures i < Total(s) ==> SongSounds(s)[i].Cell? && SongSounds(s)[i].index == i
    ensures i == Total(s) ==> SongSounds(s)[i].AllOff?
  {
    CellSoundsSize(s, Total(s));
    if i < Total(s) {
      CellSoundAt(s, Total(s), i);
    }
    hide ValidSong, StepStart, Commands, PlayFrom, CellAt, CellSounds, Total;
  }

  lemma {:induction false} FrameInside(bpm: int, i: nat, total: nat)
    requires 60 <= bpm <= 180 && i <= total <= 1024
    ensures IsStepFrame(bpm, i, StepStart(bpm, i)) && 0 <= StepStart(bpm, i) < Frames(bpm, total)
  {
    StepsGrow(bpm, 0);
    StartsBefore(bpm, 0, i);
    StartsBefore(bpm, i, total);
    FrameOfStep(bpm, i);
    EndFits(bpm, total);
    hide StepStart, Frames, IsStepFrame;
  }

  // The first frame not before the exact time of step i.
  predicate IsStepFrame(bpm: int, i: int, frame: int) {
    (frame - 1) * (bpm * 2) < i * PER_MINUTE <= frame * (bpm * 2)
  }

  lemma {:induction false} FrameOfStep(bpm: int, i: int)
    requires 60 <= bpm <= 180
    ensures IsStepFrame(bpm, i, StepStart(bpm, i))
  {
    CeilingIs(i * PER_MINUTE, bpm * 2, StepStart(bpm, i));
    CeilingIs(i * PER_MINUTE, bpm * 2, StepStart(bpm, i) - 1);
  }
}
