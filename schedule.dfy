/** The song builder's player, as a scheduler that lists the instrument
    triggers it would issue, in the order it issues them.

    Every time is in half-beats from the start of the song; a bar lasts
    `barLen` = 2 * BEATS_PER_BAR half-beats. The player plays the intro
    (drums, then a bass line over the first section), then the body (drums,
    bass line and melody over the sections the form names, each track
    starting again from the start of the body), then the ending. */
module Scheduler {
  import opened Music
  import opened Timeline

  /** The intro's length: 32 beats. */
  const IntroBeats: nat := 32
  const IntroLength: nat := 64

  const MeasuresPerSegment: nat := 16

  /** What the player needs of a section to get through it: a bass-line
      rhythm to loop over, whose events all move time on; a chord
      progression to look chords up in; and a melody event for every note. */
  predicate Loopable(seg: Segment)
  {
    && |seg.bassLineRhythm| > 0
    && Progresses(seg.bassLineRhythm)
    && |seg.chordProgression| > 0
    && |seg.notes| <= |seg.melodyRhythm|
  }

  /** A song the player gets through: a first section for the intro, a form
      that names existing sections, and sections and an ending it can loop
      over. */
  predicate Playable(song: Song)
  {
    && |song.segments| > 0
    && (forall i :: 0 <= i < |song.form| ==> song.form[i] < |song.segments|)
    && (forall i :: 0 <= i < |song.segments| ==> Loopable(song.segments[i]))
    && Loopable(song.ending)
  }

  function FormSection(song: Song, i: nat): (seg: Segment)
    requires Playable(song) && i < |song.form|
    ensures Loopable(seg)
  {
    song.segments[song.form[i]]
  }

  // ------------------------------------------------------------ intro drums

  /** The drums of intro beat `i`: a bass drum on every other beat, and from
      beat 16 on a snare on every fourth beat, two beats into the group. */
  function IntroBeat(i: nat): seq<Trigger>
  {
    (if i % 2 == 0 then [Hit(BassDrum, 2 * i)] else [])
      + (if 2 * i >= 32 && i % 4 == 2 then [Hit(SnareDrum, 2 * i)] else [])
  }

  /** The drums of the first `n` intro beats. */
  function IntroDrums(n: nat): seq<Trigger>
  {
    if n == 0 then [] else IntroDrums(n - 1) + IntroBeat(n - 1)
  }

  /** The bass-drum positions of the first `m` even beats: 0, 2, 4, ...
      beats, that is 0, 4, 8, ... half-beats. */
  function EvenBeats(m: nat): (s: seq<nat>)
    ensures |s| == m
  {
    seq(m, k => 4 * k)
  }

  /** The snare positions from beat 18 on, every four beats: 36, 44, 52,
      ... half-beats. */
  function SnareBeats(m: nat): (s: seq<nat>)
    ensures |s| == m
  {
    seq(m, k => 36 + 8 * k)
  }

  /** The number of snares among the first `n` intro beats. */
  function IntroSnares(n: nat): nat
  {
    if n < 19 then 0 else (n - 15) / 4
  }

  /** Beat `i` has a bass drum exactly when it is even. */
  lemma IntroBeatBass(i: nat)
    ensures Starts(IntroBeat(i), BassDrum) == if i % 2 == 0 then [2 * i] else []
  {
    var b: seq<Trigger> := if i % 2 == 0 then [Hit(BassDrum, 2 * i)] else [];
    var s: seq<Trigger> := if 2 * i >= 32 && i % 4 == 2 then [Hit(SnareDrum, 2 * i)] else [];
    assert IntroBeat(i) == b + s;
    StartsAppend(b, s, BassDrum);
    StartsSingle(Hit(BassDrum, 2 * i), BassDrum);
    StartsSingle(Hit(SnareDrum, 2 * i), BassDrum);
  }

  /** Beat `i` has a snare exactly when it is in the second half of the
      intro and two beats into a group of four. */
  lemma IntroBeatSnare(i: nat)
    ensures Starts(IntroBeat(i), SnareDrum) == if 2 * i >= 32 && i % 4 == 2 then [2 * i] else []
  {
    var b: seq<Trigger> := if i % 2 == 0 then [Hit(BassDrum, 2 * i)] else [];
    var s: seq<Trigger> := if 2 * i >= 32 && i % 4 == 2 then [Hit(SnareDrum, 2 * i)] else [];
    assert IntroBeat(i) == b + s;
    StartsAppend(b, s, SnareDrum);
    StartsSingle(Hit(BassDrum, 2 * i), SnareDrum);
    StartsSingle(Hit(SnareDrum, 2 * i), SnareDrum);
  }

  /** Every trigger of an intro beat is a bass drum or a snare. */
  lemma IntroBeatOnlyDrums(i: nat)
    ensures |IntroBeat(i)| == Count(IntroBeat(i), BassDrum) + Count(IntroBeat(i), SnareDrum)
  {
    var b: seq<Trigger> := if i % 2 == 0 then [Hit(BassDrum, 2 * i)] else [];
    var s: seq<Trigger> := if 2 * i >= 32 && i % 4 == 2 then [Hit(SnareDrum, 2 * i)] else [];
    assert IntroBeat(i) == b + s;
    CountAppend(b, s, BassDrum);
    CountAppend(b, s, SnareDrum);
    StartsSingle(Hit(BassDrum, 2 * i), BassDrum);
    StartsSingle(Hit(BassDrum, 2 * i), SnareDrum);
    StartsSingle(Hit(SnareDrum, 2 * i), BassDrum);
    StartsSingle(Hit(SnareDrum, 2 * i), SnareDrum);
  }

  lemma EvenBeatsSnoc(m: nat)
    ensures EvenBeats(m + 1) == EvenBeats(m) + [4 * m]
  {
  }

  lemma SnareBeatsSnoc(m: nat)
    ensures SnareBeats(m + 1) == SnareBeats(m) + [36 + 8 * m]
  {
  }

  /** Beat `i` adds a bass drum exactly when the count of even beats goes
      up, and that drum lands where the pattern puts the next one. */
  lemma IntroBassStep(i: nat)
    ensures i % 2 == 0 ==> (i + 2) / 2 == (i + 1) / 2 + 1 && 4 * ((i + 1) / 2) == 2 * i
    ensures i % 2 != 0 ==> (i + 2) / 2 == (i + 1) / 2
  {
  }

  /** The bass drums of the first `i + 1` beats: those of the first `i`,
      then beat `i`'s own. */
  lemma IntroBassSnoc(i: nat)
    ensures Starts(IntroDrums(i + 1), BassDrum) == Starts(IntroDrums(i), BassDrum) + Starts(IntroBeat(i), BassDrum)
  {
    StartsAppend(IntroDrums(i), IntroBeat(i), BassDrum);
  }

  /** Beat `i` extends the bass drums of the beats before it by the next
      one of the pattern, or by nothing. */
  lemma IntroBassDrumsStep(i: nat)
    requires Starts(IntroDrums(i), BassDrum) == EvenBeats((i + 1) / 2)
    ensures Starts(IntroDrums(i + 1), BassDrum) == EvenBeats((i + 2) / 2)
  {
    var m := (i + 1) / 2;
    IntroBassSnoc(i);
    IntroBeatBass(i);
    IntroBassStep(i);
    if i % 2 == 0 {
      EvenBeatsSnoc(m);
      assert (i + 2) / 2 == m + 1;
    } else {
      assert (i + 2) / 2 == m;
    }
  }

  /** The intro's bass drums fall on every other beat, from beat 0. */
  lemma {:induction false} IntroBassDrums(n: nat)
    ensures Starts(IntroDrums(n), BassDrum) == EvenBeats((n + 1) / 2)
  {
    if n > 0 {
      IntroBassDrums(n - 1);
      IntroBassDrumsStep(n - 1);
    } else {
      assert EvenBeats(0) == [];
    }
  }

  /** Beat `i` adds a snare exactly when the snare count goes up, and that
      snare lands where the pattern puts the next one. */
  lemma IntroSnareStep(i: nat)
    ensures 2 * i >= 32 && i % 4 == 2 ==> IntroSnares(i + 1) == IntroSnares(i) + 1 && 36 + 8 * IntroSnares(i) == 2 * i
    ensures !(2 * i >= 32 && i % 4 == 2) ==> IntroSnares(i + 1) == IntroSnares(i)
  {
  }

  /** The snares of the first `i + 1` beats: those of the first `i`, then
      beat `i`'s own. */
  lemma IntroSnaresSnoc(i: nat)
    ensures Starts(IntroDrums(i + 1), SnareDrum) == Starts(IntroDrums(i), SnareDrum) + Starts(IntroBeat(i), SnareDrum)
  {
    StartsAppend(IntroDrums(i), IntroBeat(i), SnareDrum);
  }

  /** Beat `i` extends the snares of the beats before it by the next one
      of the pattern, or by nothing. */
  lemma IntroSnareDrumsStep(i: nat)
    requires Starts(IntroDrums(i), SnareDrum) == SnareBeats(IntroSnares(i))
    ensures Starts(IntroDrums(i + 1), SnareDrum) == SnareBeats(IntroSnares(i + 1))
  {
    var m := IntroSnares(i);
    IntroSnaresSnoc(i);
    IntroBeatSnare(i);
    IntroSnareStep(i);
    if 2 * i >= 32 && i % 4 == 2 {
      SnareBeatsSnoc(m);
      assert IntroSnares(i + 1) == m + 1;
    } else {
      assert IntroSnares(i + 1) == m;
    }
  }

  /** The intro's snares fall on beats 18, 22, 26 and so on. */
  lemma {:induction false} IntroSnareDrums(n: nat)
    ensures Starts(IntroDrums(n), SnareDrum) == SnareBeats(IntroSnares(n))
  {
    if n > 0 {
      IntroSnareDrums(n - 1);
      IntroSnareDrumsStep(n - 1);
    } else {
      assert SnareBeats(0) == [];
    }
  }

  /** Two runs of nothing but drums make one. */
  lemma OnlyDrumsAppend(a: seq<Trigger>, b: seq<Trigger>)
    requires |a| == Count(a, BassDrum) + Count(a, SnareDrum)
    requires |b| == Count(b, BassDrum) + Count(b, SnareDrum)
    ensures |a + b| == Count(a + b, BassDrum) + Count(a + b, SnareDrum)
  {
    CountAppend(a, b, BassDrum);
    CountAppend(a, b, SnareDrum);
  }

  /** The intro issues nothing but bass drums and snares. */
  lemma {:induction false} IntroOnlyDrums(n: nat)
    ensures |IntroDrums(n)| == Count(IntroDrums(n), BassDrum) + Count(IntroDrums(n), SnareDrum)
  {
    if n > 0 {
      var a := IntroDrums(n - 1);
      var b := IntroBeat(n - 1);
      IntroOnlyDrums(n - 1);
      IntroBeatOnlyDrums(n - 1);
      OnlyDrumsAppend(a, b);
    } else {
      assert IntroDrums(0) == [];
    }
  }

  /** The intro's drum loop over its 32 beats: sixteen bass drums on beats
      0, 2, ..., 30 and four snares on beats 18, 22, 26 and 30. */
  method IntroDrumTrack() returns (ts: seq<Trigger>)
    ensures ts == IntroDrums(IntroBeats)
    ensures Starts(ts, BassDrum) == EvenBeats(16)
    ensures Starts(ts, SnareDrum) == SnareBeats(4)
    ensures |ts| == 20 && Count(ts, BassDrum) == 16 && Count(ts, SnareDrum) == 4
  {
    ts := [];
    var currentBeat: nat := 0;
    for i := 0 to IntroBeats
      invariant ts == IntroDrums(i)
      invariant currentBeat == 2 * i
    {
      if i % 2 == 0 {
        ts := ts + [Hit(BassDrum, currentBeat)];
      }
      if currentBeat >= 32 && i % 4 == 2 {
        ts := ts + [Hit(SnareDrum, currentBeat)];
      }
      currentBeat := currentBeat + 2;
    }
    IntroBassDrums(IntroBeats);
    IntroSnareDrums(IntroBeats);
    IntroOnlyDrums(IntroBeats);
  }

  // -------------------------------------------------------------- intro bass

  /** The events of the intro's bass loop: the first section's bass-line
      rhythm, over and over, until the intro's 32 beats are filled. */
  function IntroBassEvents(seg: Segment): seq<RhythmEvent>
    requires Loopable(seg)
  {
    Cycle(seg.bassLineRhythm, StepsToReach(seg.bassLineRhythm, IntroLength))
  }

  /** The body starts where the intro's bass loop stops. */
  function BodyStart(seg: Segment): nat
    requires Loopable(seg)
  {
    Total(IntroBassEvents(seg))
  }

  /** The intro bass: each event that is not a rest plays the chord of the
      bar it starts in, counting bars from the start of the song. */
  function IntroBass(seg: Segment, barLen: nat): seq<Trigger>
    requires Loopable(seg) && barLen > 0
  {
    var evs := IntroBassEvents(seg);
    Render(Bass, evs, BarChords(evs, seg.chordProgression, barLen, 0), 0)
  }

  /** The intro's bass loop fills at least the 32 beats and stops within
      one event of them. */
  lemma IntroBassEnd(seg: Segment)
    requires Loopable(seg)
    ensures IntroLength <= BodyStart(seg) < IntroLength + MaxDuration(seg.bassLineRhythm)
  {
    var r := seg.bassLineRhythm;
    var n := StepsToReach(r, IntroLength);
    StepsToReachReaches(r, IntroLength);
    assert n > 0;
    CycleTotalSnoc(r, n - 1);
  }

  /** What the intro's bass loop has done once its events reach the 32
      beats: it has played the intro bass, each trigger carrying the chord of
      the bar it starts in and ending by the start of the body. */
  lemma IntroBassDone(seg: Segment, barLen: nat, j: nat, measure: nat, beatInMeasure: nat, ts: seq<Trigger>)
    requires Loopable(seg) && barLen > 0
    requires j <= StepsToReach(seg.bassLineRhythm, IntroLength)
    requires Total(Cycle(seg.bassLineRhythm, j)) >= IntroLength
    requires measure * barLen + beatInMeasure == Total(Cycle(seg.bassLineRhythm, j)) && beatInMeasure < barLen
    requires ts == Render(Bass, Cycle(seg.bassLineRhythm, j), BarChords(Cycle(seg.bassLineRhythm, j), seg.chordProgression, barLen, 0), 0)
    ensures ts == IntroBass(seg, barLen)
    ensures Total(Cycle(seg.bassLineRhythm, j)) == BodyStart(seg) && beatInMeasure == BodyStart(seg) % barLen
    ensures forall t :: t in ts ==> t.track == Bass && t.start + t.duration <= BodyStart(seg)
    ensures forall t :: t in ts ==> t.id == ChordAt(seg.chordProgression, barLen, t.start)
  {
    var r := seg.bassLineRhythm;
    ReachIndex(r, IntroLength, j);
    DivOfSplit(Total(Cycle(r, j)), barLen, measure, beatInMeasure);
    RenderBounds(Bass, Cycle(r, j), BarChords(Cycle(r, j), seg.chordProgression, barLen, 0), 0);
    RenderPlaysBarChord(Bass, Cycle(r, j), seg.chordProgression, barLen, 0, 0);
  }

  /** The intro's bass loop, with its bar counter that takes whole bars off
      the beats counted since the last bar. It hands on where it stopped and
      how far into a bar that is. */
  method IntroBassTrack(seg: Segment, barLen: nat) returns (ts: seq<Trigger>, bodyStart: nat, beatInMeasure: nat)
    requires Loopable(seg) && barLen > 0
    ensures ts == IntroBass(seg, barLen)
    ensures bodyStart == BodyStart(seg) && beatInMeasure == bodyStart % barLen
    ensures forall t :: t in ts ==> t.track == Bass && t.start + t.duration <= bodyStart
    ensures forall t :: t in ts ==> t.id == ChordAt(seg.chordProgression, barLen, t.start)
  {
    var r := seg.bassLineRhythm;
    var chords := seg.chordProgression;
    ghost var n := StepsToReach(r, IntroLength);
    ts := [];
    var currentBeat: nat := 0;
    var j: nat := 0;
    var measure: nat := 0;
    beatInMeasure := 0;
    while currentBeat < IntroLength
      invariant j <= n
      invariant currentBeat == Total(Cycle(r, j))
      invariant measure * barLen + beatInMeasure == currentBeat && beatInMeasure < barLen
      invariant ts == Render(Bass, Cycle(r, j), BarChords(Cycle(r, j), chords, barLen, 0), 0)
      decreases n - j
    {
      ReachIndex(r, IntroLength, j);
      var rhythm := r[j % |r|];
      BarLoopStep(Bass, r, chords, barLen, 0, 0, j, measure, beatInMeasure);
      if !rhythm.isRest {
        ts := ts + [Trigger(Bass, currentBeat, chords[measure % |chords|], rhythm.duration)];
      }
      currentBeat := currentBeat + rhythm.duration;
      beatInMeasure := beatInMeasure + rhythm.duration;
      while beatInMeasure >= barLen
        invariant measure * barLen + beatInMeasure == currentBeat
      {
        MulSucc(measure, barLen);
        measure := measure + 1;
        beatInMeasure := beatInMeasure - barLen;
      }
      j := j + 1;
    }
    bodyStart := currentBeat;
    IntroBassDone(seg, barLen, j, measure, beatInMeasure, ts);
  }

  // ------------------------------------------------------------- body drums

  /** The drums of one bar starting at `t`: bass drum on its first and third
      beat, snare on its third. */
  function DrumBar(t: nat): seq<Trigger>
  {
    [Hit(BassDrum, t), Hit(BassDrum, t + 4), Hit(SnareDrum, t + 4)]
  }

  /** The `k`-th bar line after `origin`, reached by adding one bar length
      per bar as the drum loop does. */
  function BarLine(origin: nat, k: nat, barLen: nat): nat
  {
    if k == 0 then origin else BarLine(origin, k - 1, barLen) + barLen
  }

  lemma {:induction false} BarLineIs(origin: nat, k: nat, barLen: nat)
    ensures BarLine(origin, k, barLen) == origin + k * barLen
  {
    if k > 0 {
      BarLineIs(origin, k - 1, barLen);
      MulSucc(k - 1, barLen);
    }
  }

  /** The drums of the body's first `bars` bars. */
  function BodyDrums(bars: nat, origin: nat, barLen: nat): seq<Trigger>
  {
    if bars == 0 then [] else BodyDrums(bars - 1, origin, barLen) + DrumBar(BarLine(origin, bars - 1, barLen))
  }

  lemma DrumBarCounts(t: nat)
    ensures Count(DrumBar(t), BassDrum) == 2 && Count(DrumBar(t), SnareDrum) == 1
  {
    var a, b, c := Hit(BassDrum, t), Hit(BassDrum, t + 4), Hit(SnareDrum, t + 4);
    assert DrumBar(t) == [a] + [b] + [c];
    CountAppend([a] + [b], [c], BassDrum);
    CountAppend([a] + [b], [c], SnareDrum);
    CountAppend([a], [b], BassDrum);
    CountAppend([a], [b], SnareDrum);
    StartsSingle(a, BassDrum);
    StartsSingle(a, SnareDrum);
    StartsSingle(b, BassDrum);
    StartsSingle(b, SnareDrum);
    StartsSingle(c, BassDrum);
    StartsSingle(c, SnareDrum);
  }

  /** Each bar of the body gives two bass drums and one snare. */
  lemma {:induction false} BodyDrumsCounts(bars: nat, origin: nat, barLen: nat)
    ensures |BodyDrums(bars, origin, barLen)| == 3 * bars
    ensures Count(BodyDrums(bars, origin, barLen), BassDrum) == 2 * bars
    ensures Count(BodyDrums(bars, origin, barLen), SnareDrum) == bars
  {
    if bars > 0 {
      var prev := BodyDrums(bars - 1, origin, barLen);
      var t := BarLine(origin, bars - 1, barLen);
      BodyDrumsCounts(bars - 1, origin, barLen);
      CountAppend(prev, DrumBar(t), BassDrum);
      CountAppend(prev, DrumBar(t), SnareDrum);
      DrumBarCounts(t);
    }
  }

  /** Bar `k` of the body contributes triggers 3k, 3k+1 and 3k+2: a bass
      drum on its bar line, and a bass drum and a snare two beats later. */
  lemma {:induction false} BodyDrumsBar(bars: nat, origin: nat, barLen: nat, k: nat)
    requires k < bars
    ensures |BodyDrums(bars, origin, barLen)| == 3 * bars
    ensures BodyDrums(bars, origin, barLen)[3 * k..3 * k + 3] == DrumBar(BarLine(origin, k, barLen))
  {
    var prev := BodyDrums(bars - 1, origin, barLen);
    BodyDrumsCounts(bars - 1, origin, barLen);
    BodyDrumsCounts(bars, origin, barLen);
    if k < bars - 1 {
      BodyDrumsBar(bars - 1, origin, barLen, k);
      assert BodyDrums(bars, origin, barLen)[3 * k..3 * k + 3] == prev[3 * k..3 * k + 3];
    } else {
      assert BodyDrums(bars, origin, barLen)[3 * k..] == DrumBar(BarLine(origin, k, barLen));
    }
  }

  /** The body's drum loop: sixteen bars per form entry, each with a bass
      drum on its first and third beat and a snare on its third. */
  method BodyDrumTrack(formLength: nat, bodyStart: nat, barLen: nat) returns (ts: seq<Trigger>)
    ensures ts == BodyDrums(MeasuresPerSegment * formLength, bodyStart, barLen)
    ensures |ts| == 3 * MeasuresPerSegment * formLength
    ensures Count(ts, BassDrum) == 2 * MeasuresPerSegment * formLength
    ensures Count(ts, SnareDrum) == MeasuresPerSegment * formLength
    ensures forall k :: 0 <= k < MeasuresPerSegment * formLength ==>
      ts[3 * k..3 * k + 3] == DrumBar(bodyStart + k * barLen)
  {
    ts := [];
    var currentBeat: nat := 0;
    ghost var bars := 0;
    for i := 0 to formLength
      invariant bars == MeasuresPerSegment * i
      invariant currentBeat + bodyStart == BarLine(bodyStart, bars, barLen)
      invariant ts == BodyDrums(bars, bodyStart, barLen)
    {
      for j := 0 to MeasuresPerSegment
        invariant bars == MeasuresPerSegment * i + j
        invariant currentBeat + bodyStart == BarLine(bodyStart, bars, barLen)
        invariant ts == BodyDrums(bars, bodyStart, barLen)
      {
        ts := ts + [Hit(BassDrum, currentBeat + bodyStart)];
        ts := ts + [Hit(BassDrum, currentBeat + 4 + bodyStart)];
        ts := ts + [Hit(SnareDrum, currentBeat + 4 + bodyStart)];
        currentBeat := currentBeat + barLen;
        bars := bars + 1;
      }
    }
    BodyDrumsCounts(bars, bodyStart, barLen);
    forall k | 0 <= k < bars
      ensures ts[3 * k..3 * k + 3] == DrumBar(bodyStart + k * barLen)
    {
      BodyDrumsBar(bars, bodyStart, barLen, k);
      BarLineIs(bodyStart, k, barLen);
    }
  }

  // --------------------------------------------------------------- body bass

  /** The events of one body section's bass loop: its bass-line rhythm,
      over and over, until the resetting bar counter has counted sixteen
      bars. */
  function SectionBassEvents(seg: Segment, barLen: nat): seq<RhythmEvent>
    requires Loopable(seg) && barLen > 0
  {
    Cycle(seg.bassLineRhythm, StepsToBars(seg.bassLineRhythm, barLen, MeasuresPerSegment))
  }

  /** One body section's bass: each event that is not a rest plays the chord
      the resetting counter has reached. */
  function BassSection(seg: Segment, barLen: nat, origin: nat): seq<Trigger>
    requires Loopable(seg) && barLen > 0
  {
    var evs := SectionBassEvents(seg, barLen);
    Render(Bass, evs, ResetChords(evs, seg.chordProgression, barLen), origin)
  }

  /** How long the bass of the first `n` form entries lasts. */
  function BodyBassLength(song: Song, barLen: nat, n: nat): nat
    requires Playable(song) && barLen > 0 && n <= |song.form|
  {
    if n == 0 then 0
    else BodyBassLength(song, barLen, n - 1) + Total(SectionBassEvents(FormSection(song, n - 1), barLen))
  }

  /** The bass of the first `n` form entries, each section starting where
      the one before it stopped. */
  function BodyBass(song: Song, barLen: nat, origin: nat, n: nat): seq<Trigger>
    requires Playable(song) && barLen > 0 && n <= |song.form|
  {
    if n == 0 then [] else
      BodyBass(song, barLen, origin, n - 1)
      + BassSection(FormSection(song, n - 1), barLen, origin + BodyBassLength(song, barLen, n - 1))
  }

  /** The bass of the first `i + 1` form entries: that of the first `i`,
      then entry `i`'s section from where they stopped. */
  lemma BodyBassSnoc(song: Song, barLen: nat, origin: nat, n: nat)
    requires Playable(song) && barLen > 0 && 0 < n <= |song.form|
    ensures BodyBassLength(song, barLen, n)
      == BodyBassLength(song, barLen, n - 1) + Total(SectionBassEvents(FormSection(song, n - 1), barLen))
    ensures BodyBass(song, barLen, origin, n)
      == BodyBass(song, barLen, origin, n - 1) + BassSection(FormSection(song, n - 1), barLen, origin + BodyBassLength(song, barLen, n - 1))
  {
  }

  /** A section's bass lasts at least its sixteen bars. */
  lemma SectionBassCovers(seg: Segment, barLen: nat)
    requires Loopable(seg) && barLen > 0
    ensures Total(SectionBassEvents(seg, barLen)) >= MeasuresPerSegment * barLen
  {
    StepsToBarsLength(seg.bassLineRhythm, barLen, MeasuresPerSegment);
  }

  /** Since the counter drops whatever runs past a bar line, each section's
      bass lasts at least its sixteen bars, so the body's bass line lasts at
      least as long as the body's drums. */
  lemma {:induction false} BodyBassCoversDrums(song: Song, barLen: nat, n: nat)
    requires Playable(song) && barLen > 0 && n <= |song.form|
    ensures BodyBassLength(song, barLen, n) >= n * (MeasuresPerSegment * barLen)
  {
    if n > 0 {
      BodyBassCoversDrums(song, barLen, n - 1);
      SectionBassCovers(FormSection(song, n - 1), barLen);
      MulSucc(n - 1, MeasuresPerSegment * barLen);
    }
  }

  /** One body section's bass loop. Its bar counter restarts from zero each
      time it reaches a bar, so it leaves the counter at zero. */
  method BassSectionTrack(seg: Segment, barLen: nat, origin: nat) returns (ts: seq<Trigger>, length: nat, beatInMeasure: nat)
    requires Loopable(seg) && barLen > 0
    ensures ts == BassSection(seg, barLen, origin)
    ensures Count(ts, BassDrum) == 0 && Count(ts, SnareDrum) == 0
    ensures length == Total(SectionBassEvents(seg, barLen)) && length >= MeasuresPerSegment * barLen
    ensures beatInMeasure == 0
  {
    var r := seg.bassLineRhythm;
    var chords := seg.chordProgression;
    ghost var n := StepsToBars(r, barLen, MeasuresPerSegment);
    ts := [];
    length := 0;
    var measure: nat := 0;
    beatInMeasure := 0;
    var j: nat := 0;
    ghost var played: seq<RhythmEvent> := [];
    while measure < MeasuresPerSegment
      invariant j <= n
      invariant played == Cycle(r, j)
      invariant ResetLoopAt(Bass, played, chords, barLen, origin, measure, beatInMeasure, length, ts)
      invariant j > 0 && measure >= MeasuresPerSegment ==> beatInMeasure == 0
      decreases n - j
    {
      ResetLoopIndex(r, barLen, MeasuresPerSegment, j);
      var rhythm := r[j % |r|];
      ResetLoopStep(Bass, played, rhythm, chords, barLen, origin, measure, beatInMeasure, length, ts);
      CycleSnoc(r, j);
      played := played + [rhythm];
      if !rhythm.isRest {
        ts := ts + [Trigger(Bass, length + origin, chords[measure % |chords|], rhythm.duration)];
      }
      length := length + rhythm.duration;
      beatInMeasure := beatInMeasure + rhythm.duration;
      if beatInMeasure >= barLen {
        measure := measure + 1;
        beatInMeasure := 0;
      }
      j := j + 1;
    }
    ResetLoopIndex(r, barLen, MeasuresPerSegment, j);
    StepsToBarsLength(r, barLen, MeasuresPerSegment);
    BassSectionOnBass(seg, barLen, origin);
    PitchedHasNoDrums(ts, Bass);
  }

  /** The body's bass loop over the form. The bar counter it hands on is the
      one it was given when the form is empty, and zero otherwise. */
  method BodyBassTrack(song: Song, barLen: nat, bodyStart: nat, beatInMeasure0: nat) returns (ts: seq<Trigger>, beatInMeasure: nat)
    requires Playable(song) && barLen > 0
    ensures ts == BodyBass(song, barLen, bodyStart, |song.form|)
    ensures Count(ts, BassDrum) == 0 && Count(ts, SnareDrum) == 0
    ensures beatInMeasure == if |song.form| > 0 then 0 else beatInMeasure0
  {
    ts := [];
    beatInMeasure := beatInMeasure0;
    var currentBeat: nat := 0;
    for i := 0 to |song.form|
      invariant ts == BodyBass(song, barLen, bodyStart, i)
      invariant Count(ts, BassDrum) == 0 && Count(ts, SnareDrum) == 0
      invariant currentBeat == BodyBassLength(song, barLen, i)
      invariant beatInMeasure == if i > 0 then 0 else beatInMeasure0
    {
      var segment := FormSection(song, i);
      BodyBassSnoc(song, barLen, bodyStart, i + 1);
      var section, length;
      section, length, beatInMeasure := BassSectionTrack(segment, barLen, currentBeat + bodyStart);
      DrumCountsAppend(ts, section);
      ts := ts + section;
      currentBeat := currentBeat + length;
    }
  }

  // ------------------------------------------------------------------ melody

  /** The melody events a section plays: one per note. */
  function MelodyEvents(seg: Segment): seq<RhythmEvent>
    requires |seg.notes| <= |seg.melodyRhythm|
  {
    seg.melodyRhythm[..|seg.notes|]
  }

  /** One section's melody: each event that is not a rest plays its note. */
  function MelodySection(seg: Segment, origin: nat): seq<Trigger>
    requires |seg.notes| <= |seg.melodyRhythm|
  {
    Render(Melody, MelodyEvents(seg), seg.notes, origin)
  }

  /** When no melody event is a rest, note `k` sounds at the onset of event
      `k` for the event's duration. */
  lemma MelodyPlaysEveryNote(seg: Segment, origin: nat)
    requires |seg.notes| <= |seg.melodyRhythm|
    requires forall k :: 0 <= k < |seg.notes| ==> !seg.melodyRhythm[k].isRest
    ensures |MelodySection(seg, origin)| == |seg.notes|
    ensures forall k :: 0 <= k < |seg.notes| ==>
      MelodySection(seg, origin)[k] == Trigger(Melody, origin + Onset(seg.melodyRhythm, k), seg.notes[k], seg.melodyRhythm[k].duration)
  {
    var evs := MelodyEvents(seg);
    RenderAllSounding(Melody, evs, seg.notes, origin);
    forall k | 0 <= k < |seg.notes| ensures Onset(evs, k) == Onset(seg.melodyRhythm, k) {
      assert evs[..k] == seg.melodyRhythm[..k];
    }
  }

  function BodyMelodyLength(song: Song, n: nat): nat
    requires Playable(song) && n <= |song.form|
  {
    if n == 0 then 0
    else BodyMelodyLength(song, n - 1) + Total(MelodyEvents(FormSection(song, n - 1)))
  }

  /** The melody of the first `n` form entries, each section once, one after
      the other. */
  function BodyMelody(song: Song, origin: nat, n: nat): seq<Trigger>
    requires Playable(song) && n <= |song.form|
  {
    if n == 0 then [] else
      BodyMelody(song, origin, n - 1)
      + MelodySection(FormSection(song, n - 1), origin + BodyMelodyLength(song, n - 1))
  }

  /** Note `j` of the melody loop: if its event is not a rest it adds one
      trigger, at the time played so far. */
  lemma MelodyStep(seg: Segment, origin: nat, j: nat)
    requires j < |seg.notes| <= |seg.melodyRhythm|
    ensures Total(seg.melodyRhythm[..j + 1]) == Total(seg.melodyRhythm[..j]) + seg.melodyRhythm[j].duration
    ensures Render(Melody, seg.melodyRhythm[..j + 1], seg.notes[..j + 1], origin)
         == Render(Melody, seg.melodyRhythm[..j], seg.notes[..j], origin)
            + (if seg.melodyRhythm[j].isRest then []
               else [Trigger(Melody, origin + Total(seg.melodyRhythm[..j]), seg.notes[j], seg.melodyRhythm[j].duration)])
  {
    var rhythm := seg.melodyRhythm[j];
    assert seg.melodyRhythm[..j + 1] == seg.melodyRhythm[..j] + [rhythm];
    assert seg.notes[..j + 1] == seg.notes[..j] + [seg.notes[j]];
    RenderSnoc(Melody, seg.melodyRhythm[..j], seg.notes[..j], rhythm, seg.notes[j], origin);
    TotalSnoc(seg.melodyRhythm[..j], rhythm);
  }

  /** Having walked every note, the loop has played the section's melody,
      one note after the other. */
  lemma MelodyDone(seg: Segment, origin: nat)
    requires |seg.notes| <= |seg.melodyRhythm|
    ensures Render(Melody, seg.melodyRhythm[..|seg.notes|], seg.notes[..|seg.notes|], origin) == MelodySection(seg, origin)
    ensures forall i, j :: 0 <= i < j < |MelodySection(seg, origin)| ==>
      MelodySection(seg, origin)[i].start + MelodySection(seg, origin)[i].duration <= MelodySection(seg, origin)[j].start
  {
    assert seg.notes[..|seg.notes|] == seg.notes;
    RenderMonophonic(Melody, MelodyEvents(seg), seg.notes, origin);
  }

  /** One section's melody loop, which walks the notes once. */
  method MelodySectionTrack(seg: Segment, origin: nat) returns (ts: seq<Trigger>, length: nat)
    requires |seg.notes| <= |seg.melodyRhythm|
    ensures ts == MelodySection(seg, origin)
    ensures length == Total(MelodyEvents(seg))
    ensures forall i, j :: 0 <= i < j < |ts| ==> ts[i].start + ts[i].duration <= ts[j].start
  {
    ts := [];
    length := 0;
    for j := 0 to |seg.notes|
      invariant ts == Render(Melody, seg.melodyRhythm[..j], seg.notes[..j], origin)
      invariant length == Total(seg.melodyRhythm[..j])
    {
      var rhythm := seg.melodyRhythm[j];
      MelodyStep(seg, origin, j);
      if !rhythm.isRest {
        ts := ts + [Trigger(Melody, length + origin, seg.notes[j], rhythm.duration)];
      }
      length := length + rhythm.duration;
    }
    MelodyDone(seg, origin);
  }

  /** The body's melody loop over the form. It returns how long the body's
      melody lasts, which is where the ending starts. */
  method BodyMelodyTrack(song: Song, bodyStart: nat) returns (ts: seq<Trigger>, length: nat)
    requires Playable(song)
    ensures ts == BodyMelody(song, bodyStart, |song.form|)
    ensures length == BodyMelodyLength(song, |song.form|)
  {
    ts := [];
    length := 0;
    for i := 0 to |song.form|
      invariant ts == BodyMelody(song, bodyStart, i)
      invariant length == BodyMelodyLength(song, i)
    {
      var segment := FormSection(song, i);
      var section, sectionLength := MelodySectionTrack(segment, length + bodyStart);
      ts := ts + section;
      length := length + sectionLength;
    }
  }

  // ------------------------------------------------------------------ ending

  /** How long the ending's melody lasts; the ending's bass loop runs until
      its bar count covers it. */
  function EndingLength(ending: Segment): nat
    requires |ending.notes| <= |ending.melodyRhythm|
  {
    Total(MelodyEvents(ending))
  }

  /** The events of the ending's bass loop, whose bar count starts `carried`
      half-beats into a bar. */
  function EndingBassEvents(ending: Segment, barLen: nat, carried: nat): seq<RhythmEvent>
    requires Loopable(ending) && barLen > 0
  {
    Cycle(ending.bassLineRhythm, StepsToBarAtLeast(ending.bassLineRhythm, barLen, carried, EndingLength(ending)))
  }

  /** The ending's bass: each event that is not a rest plays the chord of
      the bar it starts in, counting from `carried` half-beats into a bar. */
  function EndingBass(ending: Segment, barLen: nat, carried: nat, origin: nat): seq<Trigger>
    requires Loopable(ending) && barLen > 0
  {
    var evs := EndingBassEvents(ending, barLen, carried);
    Render(Bass, evs, BarChords(evs, ending.chordProgression, barLen, carried), origin)
  }

  /** What the ending's bass loop has done once its bar count covers the
      ending's melody: it has played the ending's bass, each trigger carrying
      the chord of the bar it starts in. */
  lemma EndingBassDone(ending: Segment, barLen: nat, origin: nat, carried: nat,
                       j: nat, measure: nat, beatInMeasure: nat, ts: seq<Trigger>)
    requires Loopable(ending) && barLen > 0
    requires j <= StepsToBarAtLeast(ending.bassLineRhythm, barLen, carried, EndingLength(ending))
    requires measure * barLen >= EndingLength(ending)
    requires measure * barLen + beatInMeasure == carried + Total(Cycle(ending.bassLineRhythm, j)) && beatInMeasure < barLen
    requires ts == Render(Bass, Cycle(ending.bassLineRhythm, j),
                          BarChords(Cycle(ending.bassLineRhythm, j), ending.chordProgression, barLen, carried), origin)
    ensures ts == EndingBass(ending, barLen, carried, origin)
    ensures forall t :: t in ts ==> t.track == Bass && origin <= t.start
    ensures forall t :: t in ts ==> t.id == ChordAt(ending.chordProgression, barLen, carried + t.start - origin)
  {
    var r := ending.bassLineRhythm;
    BarLoopIndex(r, barLen, carried, EndingLength(ending), j, measure, beatInMeasure);
    RenderBounds(Bass, Cycle(r, j), BarChords(Cycle(r, j), ending.chordProgression, barLen, carried), origin);
    RenderPlaysBarChord(Bass, Cycle(r, j), ending.chordProgression, barLen, carried, origin);
  }

  /** The ending's bass loop. Its bar counter starts at zero but its beat
      counter keeps whatever the body's bass loop left in it. */
  method EndingBassTrack(ending: Segment, barLen: nat, origin: nat, endingLength: nat, carried: nat) returns (ts: seq<Trigger>)
    requires Loopable(ending) && barLen > 0 && carried < barLen
    requires endingLength == EndingLength(ending)
    ensures ts == EndingBass(ending, barLen, carried, origin)
    ensures forall t :: t in ts ==> t.track == Bass && origin <= t.start
    ensures forall t :: t in ts ==> t.id == ChordAt(ending.chordProgression, barLen, carried + t.start - origin)
  {
    var r := ending.bassLineRhythm;
    var chords := ending.chordProgression;
    ghost var n := StepsToBarAtLeast(r, barLen, carried, endingLength);
    ts := [];
    var currentBeat: nat := 0;
    var measure: nat := 0;
    var beatInMeasure: nat := carried;
    var j: nat := 0;
    while measure * barLen < endingLength
      invariant j <= n
      invariant currentBeat == Total(Cycle(r, j))
      invariant measure * barLen + beatInMeasure == carried + currentBeat && beatInMeasure < barLen
      invariant ts == Render(Bass, Cycle(r, j), BarChords(Cycle(r, j), chords, barLen, carried), origin)
      decreases n - j
    {
      BarLoopIndex(r, barLen, carried, endingLength, j, measure, beatInMeasure);
      var rhythm := r[j % |r|];
      BarLoopStep(Bass, r, chords, barLen, carried, origin, j, measure, beatInMeasure);
      if !rhythm.isRest {
        ts := ts + [Trigger(Bass, currentBeat + origin, chords[measure % |chords|], rhythm.duration)];
      }
      currentBeat := currentBeat + rhythm.duration;
      beatInMeasure := beatInMeasure + rhythm.duration;
      while beatInMeasure >= barLen
        invariant measure * barLen + beatInMeasure == carried + currentBeat
      {
        MulSucc(measure, barLen);
        measure := measure + 1;
        beatInMeasure := beatInMeasure - barLen;
      }
      j := j + 1;
    }
    EndingBassDone(ending, barLen, origin, carried, j, measure, beatInMeasure, ts);
  }

  // ------------------------------------------------------------ whole song

  /** Where the ending starts: after the intro and the body's melody. */
  function EndingStart(song: Song): nat
    requires Playable(song)
  {
    BodyStart(song.segments[0]) + BodyMelodyLength(song, |song.form|)
  }

  /** What the beat counter holds when the ending's bass loop starts: zero
      after a body bass loop, what the intro left otherwise. */
  function Carried(song: Song, barLen: nat): nat
    requires Playable(song) && barLen > 0
  {
    if |song.form| > 0 then 0 else BodyStart(song.segments[0]) % barLen
  }

  /** Every trigger the player issues for `song`, in order. */
  function Schedule(song: Song, bpb: nat): seq<Trigger>
    requires Playable(song) && bpb > 0
  {
    var barLen := 2 * bpb;
    var intro := song.segments[0];
    var bodyStart := BodyStart(intro);
    IntroDrums(IntroBeats)
      + IntroBass(intro, barLen)
      + BodyDrums(MeasuresPerSegment * |song.form|, bodyStart, barLen)
      + BodyBass(song, barLen, bodyStart, |song.form|)
      + BodyMelody(song, bodyStart, |song.form|)
      + MelodySection(song.ending, EndingStart(song))
      + EndingBass(song.ending, barLen, Carried(song, barLen), EndingStart(song))
  }

  /** The player's scheduling, phase by phase. */
  method Play(song: Song, bpb: nat) returns (ts: seq<Trigger>)
    requires Playable(song) && bpb > 0
    ensures ts == Schedule(song, bpb)
    ensures Count(ts, BassDrum) == 16 + 2 * MeasuresPerSegment * |song.form|
    ensures Count(ts, SnareDrum) == 4 + MeasuresPerSegment * |song.form|
  {
    var barLen := 2 * bpb;
    var introDrums := IntroDrumTrack();
    var introBass, bodyStartBeat, beatInMeasure := IntroBassTrack(song.segments[0], barLen);
    var bodyDrums := BodyDrumTrack(|song.form|, bodyStartBeat, barLen);
    var bodyBass;
    bodyBass, beatInMeasure := BodyBassTrack(song, barLen, bodyStartBeat, beatInMeasure);
    var bodyMelody, melodyLength := BodyMelodyTrack(song, bodyStartBeat);
    var endingStartBeat := melodyLength + bodyStartBeat;
    var endingMelody, endingLength := MelodySectionTrack(song.ending, endingStartBeat);
    var endingBass := EndingBassTrack(song.ending, barLen, endingStartBeat, endingLength, beatInMeasure);
    assert beatInMeasure == Carried(song, barLen);
    assert endingStartBeat == EndingStart(song);
    OnTrackOf(introBass, Bass);
    PitchedHasNoDrums(introBass, Bass);
    BodyMelodyOnMelody(song, bodyStartBeat, |song.form|);
    PitchedHasNoDrums(bodyMelody, Melody);
    RenderOnTrack(Melody, MelodyEvents(song.ending), song.ending.notes, endingStartBeat);
    PitchedHasNoDrums(endingMelody, Melody);
    OnTrackOf(endingBass, Bass);
    PitchedHasNoDrums(endingBass, Bass);
    DrumCensus(introDrums, introBass, bodyDrums, bodyBass, bodyMelody, endingMelody, endingBass, MeasuresPerSegment * |song.form|);
    ts := introDrums + introBass + bodyDrums + bodyBass + bodyMelody + endingMelody + endingBass;
  }

  // ------------------------------------------------------------ drum census

  /** Every trigger of `ts` is on `track`. */
  predicate OnTrack(ts: seq<Trigger>, track: Track)
  {
    forall k :: 0 <= k < |ts| ==> ts[k].track == track
  }

  lemma OnTrackAppend(a: seq<Trigger>, b: seq<Trigger>, track: Track)
    requires OnTrack(a, track) && OnTrack(b, track)
    ensures OnTrack(a + b, track)
  {
  }

  /** A rendered track is all on its track. */
  lemma RenderOnTrack(track: Track, evs: seq<RhythmEvent>, ids: seq<nat>, origin: nat)
    requires |ids| == |evs|
    ensures OnTrack(Render(track, evs, ids, origin), track)
  {
    var r := Render(track, evs, ids, origin);
    RenderBounds(track, evs, ids, origin);
    forall k | 0 <= k < |r| ensures r[k].track == track {
      assert r[k] in r;
    }
  }

  /** A run all on a pitched track holds no drums. */
  lemma {:induction false} PitchedHasNoDrums(ts: seq<Trigger>, track: Track)
    requires track == Bass || track == Melody
    requires OnTrack(ts, track)
    ensures Count(ts, BassDrum) == 0 && Count(ts, SnareDrum) == 0
    decreases |ts|
  {
    if ts != [] {
      PitchedHasNoDrums(ts[..|ts| - 1], track);
    }
  }

  lemma DrumCountsAppend(a: seq<Trigger>, b: seq<Trigger>)
    ensures Count(a + b, BassDrum) == Count(a, BassDrum) + Count(b, BassDrum)
    ensures Count(a + b, SnareDrum) == Count(a, SnareDrum) + Count(b, SnareDrum)
  {
    CountAppend(a, b, BassDrum);
    CountAppend(a, b, SnareDrum);
  }

  lemma BassSectionOnBass(seg: Segment, barLen: nat, origin: nat)
    requires Loopable(seg) && barLen > 0
    ensures OnTrack(BassSection(seg, barLen, origin), Bass)
  {
    var evs := SectionBassEvents(seg, barLen);
    RenderOnTrack(Bass, evs, ResetChords(evs, seg.chordProgression, barLen), origin);
  }

  /** The body's melody loop plays on the melody only. */
  lemma {:induction false} BodyMelodyOnMelody(song: Song, origin: nat, n: nat)
    requires Playable(song) && n <= |song.form|
    ensures OnTrack(BodyMelody(song, origin, n), Melody)
    decreases n
  {
    if n > 0 {
      var seg := FormSection(song, n - 1);
      var at := origin + BodyMelodyLength(song, n - 1);
      BodyMelodyOnMelody(song, origin, n - 1);
      RenderOnTrack(Melody, MelodyEvents(seg), seg.notes, at);
      OnTrackAppend(BodyMelody(song, origin, n - 1), MelodySection(seg, at), Melody);
    }
  }

  lemma OnTrackOf(ts: seq<Trigger>, track: Track)
    requires forall t :: t in ts ==> t.track == track
    ensures OnTrack(ts, track)
  {
    forall k | 0 <= k < |ts| ensures ts[k].track == track {
      assert ts[k] in ts;
    }
  }

  /** The run holds no drums. */
  predicate Drumless(ts: seq<Trigger>)
  {
    Count(ts, BassDrum) == 0 && Count(ts, SnareDrum) == 0
  }

  /** The seven tracks of the schedule hold, together, the intro's sixteen
      bass drums and four snares and the body's two bass drums and one
      snare per bar: the bass and the melody add none. */
  lemma DrumCensus(a: seq<Trigger>, b: seq<Trigger>, c: seq<Trigger>, d: seq<Trigger>,
                   e: seq<Trigger>, f: seq<Trigger>, g: seq<Trigger>, bars: nat)
    requires Count(a, BassDrum) == 16 && Count(a, SnareDrum) == 4
    requires Count(c, BassDrum) == 2 * bars && Count(c, SnareDrum) == bars
    requires Drumless(b) && Drumless(d) && Drumless(e) && Drumless(f) && Drumless(g)
    ensures Count(a + b + c + d + e + f + g, BassDrum) == 16 + 2 * bars
    ensures Count(a + b + c + d + e + f + g, SnareDrum) == 4 + bars
  {
    DrumCountsAppend(a, b);
    DrumCountsAppend(a + b, c);
    DrumCountsAppend(a + b + c, d);
    DrumCountsAppend(a + b + c + d, e);
    DrumCountsAppend(a + b + c + d + e, f);
    DrumCountsAppend(a + b + c + d + e + f, g);
  }

}
