/** The song builder's composition glue: it takes what the sampler drew for
    each layer, tiles each melody rhythm four times, and derives the ending
    from the last note of the section that closes the form. */
module Composer {
  import opened Music
  import opened Harmony
  import opened Rhythm
  import opened Pitch

  /** A melody rhythm repeated four times, event for event. */
  function Tile(r: seq<RhythmEvent>): (t: seq<RhythmEvent>)
    ensures |t| == 4 * |r|
    ensures forall i :: 0 <= i < |t| ==> t[i] == r[i % |r|]
  {
    var t := r + r + r + r;
    assert forall i :: 0 <= i < |t| ==> t[i] == r[i % |r|] by {
      forall i | 0 <= i < |t| ensures t[i] == r[i % |r|] {
        var n := |r|;
        if i < n {
          DivOfSplit(i, n, 0, i);
        } else if i < 2 * n {
          DivOfSplit(i, n, 1, i - n);
        } else if i < 3 * n {
          DivOfSplit(i, n, 2, i - 2 * n);
        } else {
          DivOfSplit(i, n, 3, i - 3 * n);
        }
      }
    }
    t
  }

  /** Tiling multiplies the length of the rhythm by four. */
  lemma TileTotal(r: seq<RhythmEvent>)
    ensures Total(Tile(r)) == 4 * Total(r)
  {
    TotalAppend(r, r);
    TotalAppend(r + r, r);
    TotalAppend(r + r + r, r);
  }

  // -------------------------------------------------------------- ending

  /** A note folded down by seven scale degrees at a time until it is at
      most 7: the one value in 1..7 that is congruent to it modulo 7. */
  function FoldOctaves(n: nat): (f: nat)
    ensures f <= 7
    ensures n <= 7 ==> f == n
    ensures n > 7 ==> 1 <= f && (n - f) % 7 == 0
  {
    if n <= 7 then n else (n - 1) % 7 + 1
  }

  /** The folding loop of the ending derivation. `octaveShift` counts the
      octaves removed; nothing reads it afterwards. */
  method FoldLastNote(n: nat) returns (lastNote: nat, octaveShift: nat)
    ensures lastNote == FoldOctaves(n)
    ensures n == lastNote + 7 * octaveShift
  {
    lastNote, octaveShift := n, 0;
    while lastNote > 7
      invariant n == lastNote + 7 * octaveShift
      invariant FoldOctaves(lastNote) == FoldOctaves(n)
    {
      lastNote := lastNote - 7;
      octaveShift := octaveShift + 1;
    }
  }

  /** The closing note: the tonic for the lower third of the octave, the
      fifth for degrees 3 and 4, the octave otherwise. */
  function EndingNote(lastNote: nat): (e: nat)
    ensures e in {0, 4, 7}
    ensures e == 0 <==> lastNote <= 2
    ensures e == 4 <==> 3 <= lastNote <= 4
  {
    if lastNote <= 2 then 0 else if lastNote <= 4 then 4 else 7
  }

  /** The fixed-shape ending: the root chord, one eight-beat bass note and
      one eight-beat melody note. */
  function EndingSegment(note: nat): (s: Segment)
    ensures s.notes == [note] && s.chordProgression == [0]
    ensures Total(s.bassLineRhythm) == 16 && Total(s.melodyRhythm) == 16
    ensures |s.bassLineRhythm| == |s.melodyRhythm| == 1 && !s.melodyRhythm[0].isRest && !s.bassLineRhythm[0].isRest
  {
    Segment([0], [RhythmEvent(16, false)], [RhythmEvent(16, false)], [note])
  }

  /** The ending derived from the closing section's notes. With no notes
      the last note is undefined: the folding loop does not run and the
      switch takes its default, the octave. */
  function EndingFor(notes: seq<nat>): (s: Segment)
    ensures |s.notes| == 1 && s.notes[0] in {0, 4, 7}
  {
    if notes == [] then EndingSegment(7)
    else EndingSegment(EndingNote(FoldOctaves(notes[|notes| - 1])))
  }

  /** Worked cases of the ending derivation. */
  lemma {:induction false} EndingExamples()
    ensures EndingFor([2]).notes == [0]
    ensures EndingFor([10]).notes == [4]
    ensures EndingFor([6]).notes == [7]
    ensures EndingFor([7]).notes == [7]
    ensures EndingFor([]).notes == [7]
  {
    assert FoldOctaves(10) == 3;
  }

  // ------------------------------------------------------------ assembly

  /** What the sampler drew for one build: the form, and for each of the
      three sections its chord progression, its bass-line rhythm, its
      four-beat melody rhythm (before tiling) and its notes. */
  datatype Draws = Draws(
    form: seq<nat>,
    chordProgressions: seq<seq<nat>>,
    bassLineRhythms: seq<seq<RhythmEvent>>,
    melodyUnits: seq<seq<RhythmEvent>>,
    notes: seq<seq<nat>>)

  predicate ThreeSections(d: Draws)
  {
    |d.chordProgressions| == |d.bassLineRhythms| == |d.melodyUnits| == |d.notes| == 3
  }

  datatype BuildError =
    /** The form has no last entry, or it names a section that does not
        exist: reading that section's notes fails. */
    | NoClosingSection

  function SectionOf(d: Draws, i: nat): Segment
    requires ThreeSections(d) && i < 3
  {
    Segment(d.chordProgressions[i], d.bassLineRhythms[i], Tile(d.melodyUnits[i]), d.notes[i])
  }

  /** The song builder's assembly: the three sections with their melody
      rhythms tiled, and the ending taken from the section that closes the
      form. */
  method Build(d: Draws) returns (r: Result<Song, BuildError>)
    requires ThreeSections(d)
    ensures r.Ok? <==> |d.form| > 0 && d.form[|d.form| - 1] < 3
    ensures r.Ok? ==> r.value.form == d.form && |r.value.segments| == 3
    ensures r.Ok? ==> forall i :: 0 <= i < 3 ==> r.value.segments[i] == SectionOf(d, i)
    ensures r.Ok? ==> r.value.ending == EndingFor(d.notes[d.form[|d.form| - 1]])
  {
    var segments: seq<Segment> := [];
    for i := 0 to 3
      invariant |segments| == i
      invariant forall k :: 0 <= k < i ==> segments[k] == SectionOf(d, k)
    {
      var rhythm := d.melodyUnits[i];
      rhythm := rhythm + rhythm + rhythm + rhythm;
      segments := segments + [Segment(d.chordProgressions[i], d.bassLineRhythms[i], rhythm, d.notes[i])];
    }
    if |d.form| == 0 || d.form[|d.form| - 1] >= 3 {
      return Err(NoClosingSection);
    }
    var lastSegment := segments[d.form[|d.form| - 1]];
    var endingNote: nat;
    if |lastSegment.notes| == 0 {
      endingNote := 7;
    } else {
      var lastNote, octaveShift := FoldLastNote(lastSegment.notes[|lastSegment.notes| - 1]);
      if lastNote <= 2 {
        endingNote := 0;
      } else if lastNote <= 4 {
        endingNote := 4;
      } else {
        endingNote := 7;
      }
    }
    var ending := Segment([0], [RhythmEvent(16, false)], [RhythmEvent(16, false)], [endingNote]);
    return Ok(Song(d.form, segments, ending));
  }

  // --------------------------------------------------------- admissibility

  /** What the sampler used beyond the draws themselves, per section: the
      rest flag it passed before each rhythm's first event, the chord it
      took for each note, and the "previous note" before the first one. */
  datatype SamplerTrace = SamplerTrace(
    bassFirstRest: seq<bool>,
    melodyFirstRest: seq<bool>,
    chordAt: seq<seq<nat>>,
    firstNote: seq<int>)

  /** Draws the sampler can produce for the song builder's calls: an
      eight-section form, four-chord progressions, non-empty rhythms, and
      one note per tiled melody event, each element with positive weight
      under its rule. */
  predicate DrawsAdmissible(d: Draws, t: SamplerTrace)
  {
    && ThreeSections(d)
    && |t.bassFirstRest| == |t.melodyFirstRest| == |t.chordAt| == |t.firstNote| == 3
    && |d.form| == 8
    && FormAdmissible(d.form)
    && forall i :: 0 <= i < 3 ==>
         && |d.chordProgressions[i]| == 4
         && ChordAdmissible(d.chordProgressions[i])
         && |d.bassLineRhythms[i]| > 0
         && RhythmAdmissible(Part.BassLine, d.bassLineRhythms[i], t.bassFirstRest[i])
         && |d.melodyUnits[i]| > 0
         && RhythmAdmissible(Part.Melody, d.melodyUnits[i], t.melodyFirstRest[i])
         && NotesAdmissible(d.notes[i], Tile(d.melodyUnits[i]), t.chordAt[i], t.firstNote[i])
         && (forall k :: 0 <= k < |t.chordAt[i]| ==> t.chordAt[i][k] in d.chordProgressions[i])
  }

  /** What the song builder's output satisfies whenever the sampler behaves
      as its rules say: the form holds a C section and names only the three
      sections, so the build succeeds; every progression starts on the root
      chord and stays within chords 0..5; every note indexes the frequency
      table; the melody rhythm is its unit four times over. */
  lemma BuiltSongShape(d: Draws, t: SamplerTrace)
    requires DrawsAdmissible(d, t)
    ensures 2 in d.form
    ensures forall i :: 0 <= i < |d.form| ==> d.form[i] < 3
    ensures forall i :: 0 <= i < 3 ==> SectionOf(d, i).chordProgression[0] == 0
    ensures forall i, k :: 0 <= i < 3 && 0 <= k < |d.chordProgressions[i]| ==> d.chordProgressions[i][k] <= 5
    ensures forall i, k :: 0 <= i < 3 && 0 <= k < |d.notes[i]| ==> d.notes[i][k] < 14
    ensures forall i :: 0 <= i < 3 ==> |SectionOf(d, i).notes| == |SectionOf(d, i).melodyRhythm| > 0
    ensures forall i :: 0 <= i < 3 ==> Total(SectionOf(d, i).melodyRhythm) == 4 * Total(d.melodyUnits[i])
  {
    FormHasC(d.form);
    FormStates(d.form);
    forall i | 0 <= i < 3
      ensures SectionOf(d, i).chordProgression[0] == 0
      ensures forall k :: 0 <= k < |d.chordProgressions[i]| ==> d.chordProgressions[i][k] <= 5
      ensures forall k :: 0 <= k < |d.notes[i]| ==> d.notes[i][k] < 14
      ensures Total(SectionOf(d, i).melodyRhythm) == 4 * Total(d.melodyUnits[i])
    {
      var chords := d.chordProgressions[i];
      ChordProgressionShape(chords);
      var chordAt := t.chordAt[i];
      forall k | 0 <= k < |chordAt| ensures chordAt[k] <= 5 {
        assert chordAt[k] in chords;
      }
      NotesInTable(d.notes[i], Tile(d.melodyUnits[i]), chordAt, t.firstNote[i]);
      TileTotal(d.melodyUnits[i]);
    }
  }
}
