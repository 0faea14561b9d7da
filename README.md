# Song builder: a verified model

This project models the core of `www/song_builder.js`, the procedural song
generator and player of the Urf Tunes add-on, in Dafny.

`build()` composes a song. It draws:

- a form of eight sections over A, B and C;
- for each of the three sections, a four-chord progression, a bass-line
  rhythm, a four-beat melody rhythm (tiled four times) and a note per melody
  event;
- an ending derived from the last note of the closing section.

Each draw follows a transition rule (`formRule`, `chordRule`,
`bassLineRhythmRule`, `melodyRhythmRule`, `pitchRule`). `play()` walks the
song and schedules instrument triggers: intro drums, intro bass, body
drums, body bass, body melody, ending melody and ending bass. `stop()`
closes the audio context.

How the model is laid out:

- **Time:** integer half-beats. Every duration the builder produces is a
  multiple of half a beat, so `beat % 4` becomes a position modulo 8. A bar
  is `2 * BEATS_PER_BAR` half-beats, and `BEATS_PER_BAR` is a positive
  parameter `bpb`. Weights are integer hundredths.
- **`Music`** (`music.dfy`): the symbolic song (`RhythmEvent`, `Segment`,
  `Song`) and rhythm totals.
- **`Harmony`, `Rhythm`, `Pitch`** (`harmony.dfy`, `rhythm.dfy`,
  `pitch.dfy`): the five rules as functions. `pitchRule` also appears as a
  method with the source's left-padding loop. The sampler's output is
  characterised by admissibility predicates: every drawn element has
  positive weight under the rule applied to what came before it.
- **`Composer`** (`composer.dfy`): the melody tiling, the octave fold and
  the ending, and `Build`, which assembles a song from the draws.
- **`Timeline` and `Scheduler`** (`timeline.dfy`, `schedule.dfy`):
  - `play()` as methods, one per track, that append
    `Trigger(track, start, id, duration)` records where the source calls an
    instrument.
  - Each method is proved equal to a declarative function of the song.
  - `Scheduler.Play` is proved equal to `Scheduler.Schedule`, the
    concatenation of all seven tracks in the order the source issues them.
- **`Session`** (`session.dfy`): the module-level state, as class `Player`.
  It holds whether a context is open, the triggers scheduled on it and the
  current song.

Literal behaviour of the source that the model keeps:

- The measure counter advances by whole-bar subtraction in the intro and
  the ending, but restarts from zero in the body.
  `Timeline.ResetChordsExact` shows that both give the same chords whenever
  no event crosses a bar line.
- `beatInMeasure` is not reset before the ending bass loop. It is carried
  as `Carried`, and it is 0 whenever the form is non-empty.
- The ending starts after the melody track's total length, not after the
  bass or the drums.
- In `pitchRule`, the bands for offsets 2 and 3 fall through into the band
  for offset 4 (no `break` after line 277). `Pitch.ThirdFallsIntoFifth`
  states the consequence.
- `chordRule` has no final fallback. A history it does not list yields no
  vector (`None`). `Harmony.ChordRuleDefined` shows that no admissible
  history reaches that case.
- `octaveShift` is computed and never read.
- A body measure gets three drum triggers: bass drums at offsets 0 and 2,
  and a snare at offset 2.
- `chordRule` has no default for unlisted histories.

## Model

| member | source | states |
|---|---|---|
| Harmony.FormRule | www/song_builder.js:10-44 | Every form vector has 1 to 3 weights. The empty history gives state 0 with certainty. A six-section history without C gives C with certainty. A longer history whose last two states match no listed pair falls back to `[1]`. |
| Harmony.FormRuleLive | www/song_builder.js:10-44 | For every history, some next section has positive weight. |
| Harmony.FormStates | www/song_builder.js:10-45 | Every admissible form names only sections 0, 1 and 2, and starts with section 0. |
| Harmony.FormHasC | www/song_builder.js:26-27 | Every admissible form of seven or more sections contains section 2 (C). |
| Harmony.ChordRule | www/song_builder.js:53-98 | The first chord is 0 with certainty. Every vector for a non-empty history has seven weights and none on chord 6. A history longer than three falls off the cascade. |
| Harmony.ChordRuleDefined | www/song_builder.js:53-98 | Every admissible history of at most three chords gets a defined vector, so line 98 is never reached. |
| Harmony.SecondChordDefined | www/song_builder.js:58-98 | If `a` has positive weight after `[0]` and `b` after `[0, a]`, the cascade lists the history `[0, a, b]`. |
| Harmony.AllowedChord | www/song_builder.js:53-98 | A chord with positive weight follows a history of at most three chords and is at most 5. |
| Harmony.ChordProgressionShape | www/song_builder.js:53-101 | Every admissible progression has at most four chords, starts on chord 0 and uses only chords 0 to 5. |
| Harmony.ChordProgressionExtends | www/song_builder.js:53-101 | Every admissible three-chord history can be extended to the fourth chord. |
| Harmony.ChordVectorNonzero | www/song_builder.js:53-98 | Every defined chord vector has a positive weight. |
| Rhythm.JsRem | www/song_builder.js:105 | JavaScript's `%` truncates toward zero. The result is strictly between `-b` and `b`. It equals the Euclidean remainder for a non-negative dividend and is at most 0 for a negative one. |
| Rhythm.BassLineRhythmRule | www/song_builder.js:104-164 | Every candidate list is non-empty with positive weights. Every duration is 0.5, 1 or 1.5 beats. `isRest` is either unset or the negation of the previous flag. From a non-negative position no candidate crosses the four-beat boundary. A negative, off-cycle position gets the single candidate `{duration: 1}`. |
| Rhythm.MelodyRhythmRule | www/song_builder.js:170-231 | The same guarantees as the bass-line rule, for the melody table. |
| Rhythm.RhythmShape | www/song_builder.js:104-231 | In an admissible rhythm every duration is 0.5, 1 or 1.5 beats and no event crosses a four-beat boundary. Two rests are never consecutive, and every event moves time on. |
| Rhythm.RhythmStaysInBar | www/song_builder.js:104-231 | An admissible event's last half-beat lies in the same four-beat cycle as its onset. |
| Pitch.Classify | www/song_builder.js:243-331 | Exactly the offsets -6..1 fall in the first case group, exactly 2 and 3 in the second, and exactly those below -6 or above 6 in the `default` case. |
| Pitch.PitchWeights | www/song_builder.js:239-336 | The vector has `8 + chord` entries, and every note with positive weight lies in `[chord, chord + 7]`. |
| Pitch.PitchRule | www/song_builder.js:239-336 | The method that runs the switch and the `unshift` loop returns `8 + chord` entries. The first `chord` entries are zero. The rest is the table the switch ends on, fall-through included, so the result equals `PitchWeights`. |
| Pitch.StrongBeatChordTones | www/song_builder.js:253-324 | On a strong beat (0, 0.5, 2 or 2.5 in the cycle), every note with positive weight is 0, 2, 4 or 7 above the chord root. |
| Pitch.ThirdFallsIntoFifth | www/song_builder.js:266-291 | A previous note 2 or 3 above the root gives exactly the vector of a note 4 above it. The band's own table (lines 273, 276) is never returned. |
| Pitch.NotesInTable | www/song_builder.js:239-340 | With chords 0 to 5, every admissible note lies in `[chord, chord + 7]` and indexes the 14-entry frequency table. |
| Composer.Tile | www/song_builder.js:233-235 | The tiled rhythm has four times as many events as `r`, and event `i` is the event of `r` at `i` modulo the length of `r`. |
| Composer.TileTotal | www/song_builder.js:233-235 | The tiled rhythm lasts four times as long as its unit. |
| Composer.FoldOctaves | www/song_builder.js:347-351 | The folded note is at most 7 and unchanged if already at most 7. Otherwise it is at least 1 and congruent to the input modulo 7. |
| Composer.FoldLastNote | www/song_builder.js:346-351 | The subtraction loop gives the folded note and `octaveShift` with `n == lastNote + 7 * octaveShift`. |
| Composer.EndingNote | www/song_builder.js:352-366 | The ending note is 0, 4 or 7. It is 0 exactly for 0..2 and 4 exactly for 3..4. |
| Composer.EndingSegment | www/song_builder.js:368-373 | The ending has chords `[0]` and notes `[endingNote]`. It has one sounding bass event and one sounding melody event, each 8 beats long. |
| Composer.EndingFor | www/song_builder.js:344-373 | The ending has exactly one note, which is 0, 4 or 7. |
| Composer.EndingExamples | www/song_builder.js:344-373 | Last note 2 gives 0, 10 gives 4, 6 gives 7 and 7 gives 7. A closing section without notes gives 7. |
| Composer.Build | www/song_builder.js:47-379 | Build succeeds exactly when the form's last entry names one of the three sections. On success the song has the drawn form, the three sections with tiled melody rhythms, and the ending of the closing section's last note. |
| Composer.BuiltSongShape | www/song_builder.js:45-379 | From admissible draws: the form contains C and names only sections 0 to 2. Every progression starts on 0 and stays within 0 to 5. Every note indexes the frequency table. Every section has one note per tiled melody event. |
| Timeline.RenderMonophonic | www/song_builder.js:475-485 | Triggers rendered from one rhythm never overlap. |
| Timeline.RenderAllSounding | www/song_builder.js:477-484 | With no rests, trigger `k` starts at the onset of event `k` and carries note `k` and that event's duration. |
| Timeline.RenderPlaysBarChord | www/song_builder.js:413-428 | When bars are counted by whole-bar subtraction, each bass trigger carries the chord of the bar it starts in. |
| Timeline.ResetCounterExact | www/song_builder.js:462-467 | If no event crosses a bar line, the resetting counter equals (total / bar, total mod bar). |
| Timeline.ResetChordsExact | www/song_builder.js:458-467 | If no event crosses a bar line, the body's resetting bar count picks the same chords as true bar numbers. |
| Timeline.StepsToReachReaches | www/song_builder.js:413-428 | The intro bass loop stops at the first step whose total reaches the intro length. |
| Timeline.StepsToBarsReaches | www/song_builder.js:454-469 | The body bass loop of a section stops at the first step whose counter reaches 16 measures. |
| Timeline.StepsToBarsLength | www/song_builder.js:454-469 | A section's body bass lasts at least 16 bars. |
| Timeline.StepsToBarAtLeast | www/song_builder.js:503-516 | The ending bass loop stops at the first step whose bar start reaches the ending length. |
| Timeline.BarLoopIndex | www/song_builder.js:503-516 | The loop guard `measure * BEATS_PER_BAR < endingLength` holds exactly at the steps before that stopping step. |
| Timeline.BarsToCover | www/song_builder.js:503 | The number of bars is the least one whose length covers the ending. |
| Scheduler.IntroBassDrums | www/song_builder.js:400-403 | The first `n` intro beats carry bass drums on every other beat, from beat 0. |
| Scheduler.IntroSnareDrums | www/song_builder.js:404-405 | The first `n` intro beats carry snares at beats 18, 22, 26, … up to beat `n`. |
| Scheduler.IntroOnlyDrums | www/song_builder.js:400-407 | The intro drum loop emits only drum triggers. |
| Scheduler.IntroDrumTrack | www/song_builder.js:399-407 | The intro drum loop emits 20 triggers. There are 16 bass drums at beats 0, 2, …, 30 and 4 snares at beats 18, 22, 26 and 30. |
| Scheduler.IntroBassEnd | www/song_builder.js:413-428 | The intro bass ends at or after beat 32, and before 32 plus the longest bass event. |
| Scheduler.IntroBassTrack | www/song_builder.js:408-428 | The loop emits the intro bass line and returns the body start and the beat within the measure. Every trigger is on the bass and ends by the body start. Each carries the chord of the true bar it starts in. |
| Scheduler.BodyDrumsCounts | www/song_builder.js:434-444 | `bars` body measures give `3 * bars` triggers: `2 * bars` bass drums and `bars` snares. |
| Scheduler.BodyDrumsBar | www/song_builder.js:436-443 | Measure `k` contributes a bass drum at its start, and a bass drum and a snare two beats in. |
| Scheduler.BodyDrumTrack | www/song_builder.js:434-444 | The body drum loop emits 16 measures of drums per form step, three triggers per measure at the bar line `bodyStart + k * bar`: 32 bass drums and 16 snares per form step. |
| Scheduler.SectionBassCovers | www/song_builder.js:454-469 | A section's body bass lasts at least 16 bars. |
| Scheduler.BodyBassCoversDrums | www/song_builder.js:449-470 | The body bass lasts at least as long as the body drums. |
| Scheduler.BassSectionTrack | www/song_builder.js:450-469 | The inner loop emits one section's bass line, with the measure counter reset at each bar. It holds no drums, and it ends with `beatInMeasure == 0` after at least 16 bars. |
| Scheduler.BodyBassTrack | www/song_builder.js:449-470 | The body bass loop emits every form step's bass section, back to back from the body start. It holds no drums. |
| Scheduler.MelodyPlaysEveryNote | www/song_builder.js:477-484 | A section without rests gets one melody trigger per note, at the note's onset. |
| Scheduler.MelodySectionTrack | www/song_builder.js:477-484 | The inner loop walks the section's notes once and returns its length. Its triggers never overlap. |
| Scheduler.BodyMelodyTrack | www/song_builder.js:474-485 | The melody loop emits every form step's melody, back to back from the body start, and returns the melody's total length. |
| Scheduler.EndingBassTrack | www/song_builder.js:499-518 | The ending bass loop starts with the carried `beatInMeasure` and emits bass triggers from the ending start. Each carries the chord of the bar it falls in. |
| Scheduler.Play | www/song_builder.js:382-520 | `play()` emits the whole schedule: intro drums, intro bass, body drums, body bass, body melody, ending melody and ending bass. There are 16 bass drums plus 32 per form step, and 4 snares plus 16 per form step. |
| Session.SectionLoopable | www/song_builder.js:99-340 | Every section built from admissible draws has a non-empty bass rhythm whose events move time on, a chord progression, and a melody event per note. |
| Session.BuiltSongPlayable | www/song_builder.js:375-379 | The song assembled from admissible draws is one the player gets through. |
| Session.BuildPlayable | www/song_builder.js:6-380 | On admissible draws the build always succeeds, and its song is playable. |
| Session.Player.constructor | www/song_builder.js:535 | Loading builds a first song from the sampler's draws, which always succeeds; that song becomes current, and no context is open. |
| Session.Player.Load | www/song_builder.js:535 | Storing a playable song as the current song leaves no context open. |
| Session.Player.Play | www/song_builder.js:382-390 | Play closes any open context and opens a fresh one holding exactly the schedule of the given song, or of the current song when none is given. |
| Session.Player.Open | www/song_builder.js:390 | A fresh context holds exactly the given triggers, and the current song is unchanged. |
| Session.Player.Stop | www/song_builder.js:528-533 | Stop closes the context and drops its triggers. With no context open it changes nothing. |
| Session.Player.BuildAndPlay | www/song_builder.js:522-526 | Build-and-play keeps the built song as the current song, and the context holds its schedule. |
| Session.Player.PlayBuilt | www/song_builder.js:524-525 | Storing the song and then playing it leaves that song current and its schedule open. |

## Left out

- The sampler `markovChain.build`, `buildRhythm` and `buildNotes`, and the `equals` helper, are defined outside this file.
  - The draws are an input (`Draws`), characterised by admissibility predicates.
  - `equals` is sequence equality.
  - The chord the sampler uses for each note, and the rest flag and note before each first draw, are an explicit trace (`SamplerTrace`).
- Randomness and reproducibility are not modelled. The model proves properties of every admissible draw.
- Probabilities are integer hundredths, and only their positivity is used. Some rows do not sum to one (line 91, lines 182-185).
- Floating point output is not modelled: the frequency table (line 386), `frequencies[chord] / 4`, and division by `BEATS_PER_BAR`. Triggers carry chord or note ids and half-beat times instead.
- The `AudioContext`, the instrument classes and the `masteries` globals are not modelled. The open context is the `open` flag plus the scheduled triggers.
- `console.log` (lines 445, 471, 486) is not modelled.
- `currentInstruments` (lines 4, 384) is written and never read.
- Off-grid positions such as 0.25 beats cannot be expressed in half-beats.
  - No rule produces them.
  - The rhythm rules' `default` cases are reached only from negative positions.
- Scheduler.Play: requires a playable song, meaning non-empty bass rhythms of positive durations, a non-empty chord progression and a melody event per note. For other songs the source loops forever or reads `undefined`. `Session.BuildPlayable` shows that every build from admissible draws meets this.
- Composer.Build: requires three sections of draws, as the three-iteration loops at lines 48-50 and 99-340 produce.
