/** The pitch rule for the melody.

    Notes are scale degrees (0 = do, 1 = re, ..., 7 = the octave). The rule
    sorts the previous note, taken relative to the root of the current
    chord, into a band; picks one of two eight-entry tables for that band
    depending on whether the next note falls on a strong beat; and shifts
    the table up by the chord's root so that the drawn index is the note
    itself. */
module Pitch {
  import opened Music
  import Rhythm

  /** The bands of the band switch, by the previous note's offset above the
      chord root. */
  datatype Band =
    | NearRoot       // -6 .. 1
    | ThirdOrFourth  // 2, 3
    | Fifth          // 4
    | Sixth          // 5
    | Seventh        // 6
    | Beyond         // anything else

  function Classify(offset: int): (b: Band)
    ensures b == NearRoot <==> -6 <= offset <= 1
    ensures b == ThirdOrFourth <==> offset == 2 || offset == 3
    ensures b == Beyond <==> offset < -6 || offset > 6
  {
    if -6 <= offset <= 1 then NearRoot
    else if offset == 2 || offset == 3 then ThirdOrFourth
    else if offset == 4 then Fifth
    else if offset == 5 then Sixth
    else if offset == 6 then Seventh
    else Beyond
  }

  /** Strong beats are 0, 0.5, 2 and 2.5 within the four-beat cycle, i.e.
      half-beat positions 0, 1, 4 and 5. */
  predicate IsStrongBeat(pos: int)
  {
    Rhythm.CyclePosition(pos) in {0, 1, 4, 5}
  }

  /** The table each case of the band switch assigns, indexed by the offset
      of the next note above the chord root. */
  function CaseTable(band: Band, strong: bool): (t: seq<nat>)
    ensures |t| == 8
  {
    match band
    case NearRoot =>
      if strong then [60, 0, 30, 0, 10, 0, 0, 0] else [30, 40, 20, 10, 0, 0, 0, 0]
    case ThirdOrFourth =>
      if strong then [10, 0, 30, 0, 60, 0, 0, 0] else [0, 20, 20, 20, 40, 0, 0, 0]
    case Fifth =>
      if strong then [0, 0, 20, 0, 80, 0, 0, 0] else [0, 10, 20, 30, 20, 20, 0, 0]
    case Sixth =>
      if strong then [0, 0, 0, 0, 90, 0, 0, 10] else [0, 0, 20, 30, 40, 0, 10, 0]
    case Seventh =>
      if strong then [0, 0, 0, 0, 20, 0, 0, 80] else [0, 0, 0, 0, 0, 40, 10, 50]
    case Beyond =>
      if strong then [0, 0, 0, 0, 20, 0, 0, 80] else [0, 0, 0, 0, 10, 0, 60, 30]
  }

  /** The table the band switch ends up with. The cases for offsets 2 and 3
      end without a `break`, so control falls into the case for 4, whose
      table replaces theirs. */
  function SwitchTable(band: Band, strong: bool): (t: seq<nat>)
    ensures |t| == 8
  {
    if band == ThirdOrFourth then CaseTable(Fifth, strong) else CaseTable(band, strong)
  }

  function Zeros(n: nat): (z: seq<nat>)
    ensures |z| == n && forall k :: 0 <= k < n ==> z[k] == 0
  {
    seq(n, _ => 0)
  }

  /** The weights of the next note, indexed by the note itself: nothing
      below the chord root and nothing above the octave over it. */
  function PitchWeights(prevNote: int, pos: int, chord: nat): (w: seq<nat>)
    ensures |w| == 8 + chord
    ensures forall note: nat :: Allows(w, note) ==> chord <= note <= chord + 7
  {
    Zeros(chord) + SwitchTable(Classify(prevNote - chord), IsStrongBeat(pos))
  }

  /** The rule as the song builder evaluates it: the band switch, with its
      fall-through, then one zero pushed onto the front per chord step. */
  method PitchRule(prevNote: int, pos: int, chord: nat) returns (stateMap: seq<nat>)
    ensures |stateMap| == 8 + chord
    ensures forall k :: 0 <= k < chord ==> stateMap[k] == 0
    ensures stateMap[chord..] == SwitchTable(Classify(prevNote - chord), IsStrongBeat(pos))
    ensures stateMap == PitchWeights(prevNote, pos, chord)
  {
    var band := Classify(prevNote - chord);
    var strong := IsStrongBeat(pos);
    if band == NearRoot {
      stateMap := CaseTable(NearRoot, strong);
    } else if band == ThirdOrFourth || band == Fifth {
      if band == ThirdOrFourth {
        stateMap := CaseTable(ThirdOrFourth, strong);
      }
      // no `break` above: the case for 4 runs as well
      stateMap := CaseTable(Fifth, strong);
    } else {
      stateMap := CaseTable(band, strong);
    }
    ghost var table := stateMap;
    var i := 0;
    while i < chord
      invariant 0 <= i <= chord
      invariant |stateMap| == 8 + i
      invariant forall k :: 0 <= k < i ==> stateMap[k] == 0
      invariant stateMap[i..] == table
    {
      stateMap := [0] + stateMap;
      i := i + 1;
    }
    assert stateMap[..chord] == Zeros(chord);
    assert stateMap == stateMap[..chord] + stateMap[chord..];
  }

  /** On a strong beat every band puts weight only on the root, third, fifth
      and octave of the chord. */
  lemma StrongBeatChordTones(prevNote: int, pos: int, chord: nat, note: nat)
    requires IsStrongBeat(pos)
    requires Allows(PitchWeights(prevNote, pos, chord), note)
    ensures note - chord in {0, 2, 4, 7}
  {
    var t := SwitchTable(Classify(prevNote - chord), true);
    assert PitchWeights(prevNote, pos, chord)[note] == t[note - chord];
  }

  /** Offsets 2 and 3 get exactly the vector of offset 4; the tables written
      for them are never returned. */
  lemma ThirdFallsIntoFifth(pos: int, chord: nat)
    ensures PitchWeights(chord + 2, pos, chord) == PitchWeights(chord + 4, pos, chord)
    ensures PitchWeights(chord + 3, pos, chord) == PitchWeights(chord + 4, pos, chord)
    ensures forall prevNote: int :: PitchWeights(prevNote, pos, chord)[chord..] != CaseTable(ThirdOrFourth, IsStrongBeat(pos))
  {
    var s := IsStrongBeat(pos);
    forall prevNote: int
      ensures PitchWeights(prevNote, pos, chord)[chord..] != CaseTable(ThirdOrFourth, s)
    {
      var w := PitchWeights(prevNote, pos, chord);
      assert w[chord..] == SwitchTable(Classify(prevNote - chord), s);
      if s {
        assert w[chord..][0] != 10;
      } else {
        assert w[chord..][1] != 20;
      }
    }
  }

  /** The note the rule sees as "previous" before note `i`. */
  function PrevNote(notes: seq<nat>, i: nat, first: int): int
    requires i <= |notes|
  {
    if i == 0 then first else notes[i - 1]
  }

  /** A note sequence the sampler can produce over `rhythm`: note `i` has
      positive weight under the rule for the previous note, the beat on
      which event `i` starts, and the chord `chordAt[i]` the sampler used. */
  predicate NotesAdmissible(notes: seq<nat>, rhythm: seq<RhythmEvent>, chordAt: seq<nat>, first: int)
  {
    && |notes| == |rhythm| == |chordAt|
    && forall i :: 0 <= i < |notes| ==>
         Allows(PitchWeights(PrevNote(notes, i, first), Onset(rhythm, i), chordAt[i]), notes[i])
  }

  /** With chords 0..5 every admissible note is a valid index into the
      fourteen-entry frequency table (C4 to B5). */
  lemma NotesInTable(notes: seq<nat>, rhythm: seq<RhythmEvent>, chordAt: seq<nat>, first: int)
    requires NotesAdmissible(notes, rhythm, chordAt, first)
    requires forall i :: 0 <= i < |chordAt| ==> chordAt[i] <= 5
    ensures forall i :: 0 <= i < |notes| ==> chordAt[i] <= notes[i] <= chordAt[i] + 7
    ensures forall i :: 0 <= i < |notes| ==> notes[i] < 14
  {
    forall i | 0 <= i < |notes| ensures chordAt[i] <= notes[i] <= chordAt[i] + 7 {
      assert Allows(PitchWeights(PrevNote(notes, i, first), Onset(rhythm, i), chordAt[i]), notes[i]);
    }
  }
}
