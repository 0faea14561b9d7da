/** The rhythm rules for the bass line and for the melody.

    A rule looks at where the next event starts within the four-beat cycle
    and at whether the previous event was a rest, and offers a short list
    of weighted candidate events. A candidate either leaves `isRest` unset
    (a sounding event) or sets it to the negation of the previous event's
    flag. */
module Rhythm {
  import opened Music

  datatype Candidate = Candidate(value: RhythmEvent, weight: nat)

  /** The two parts that get a rhythm of their own. */
  datatype Part = BassLine | Melody

  /** Remainder as JavaScript's `%` computes it: truncated toward zero, so a
      negative dividend gives a remainder that is zero or negative. */
  function JsRem(a: int, b: nat): (r: int)
    requires b > 0
    ensures -(b as int) < r < b
    ensures a >= 0 ==> r == a % b
    ensures a < 0 ==> r <= 0
  {
    if a >= 0 then a % b else -((-a) % b)
  }

  /** `beat % 4` for a position given in half-beats: the position within
      the four-beat cycle, in half-beats. */
  function CyclePosition(pos: int): int
  {
    JsRem(pos, 8)
  }

  /** A candidate that leaves `isRest` unset. */
  function Unset(duration: nat, weight: nat): Candidate
  {
    Candidate(RhythmEvent(duration, false), weight)
  }

  /** A candidate whose `isRest` is the opposite of the previous event's. */
  function Flipped(duration: nat, prevRest: bool, weight: nat): Candidate
  {
    Candidate(RhythmEvent(duration, !prevRest), weight)
  }

  /** What every candidate of both rules satisfies at position `pos`. */
  predicate WellShaped(cs: seq<Candidate>, pos: int, prevRest: bool)
  {
    && |cs| > 0
    && (forall c :: c in cs ==> c.weight > 0)
    && (forall c :: c in cs ==> c.value.duration in {1, 2, 3})
    && (forall c :: c in cs ==> c.value.isRest ==> !prevRest)
    && (pos >= 0 ==> forall c :: c in cs ==> pos % 8 + c.value.duration <= 8)
  }

  function BassLineRhythmRule(pos: int, prevRest: bool): (cs: seq<Candidate>)
    ensures WellShaped(cs, pos, prevRest)
    ensures pos < 0 && pos % 8 != 0 ==> cs == [Unset(2, 100)]
  {
    var p := prevRest;
    match CyclePosition(pos)
    case 0 => [Unset(1, 10), Flipped(1, p, 30), Unset(2, 20), Flipped(2, p, 30), Unset(3, 10)]
    case 1 => [Unset(1, 40), Flipped(1, p, 30), Unset(2, 10), Flipped(2, p, 20)]
    case 2 => [Unset(1, 40), Flipped(1, p, 30), Unset(2, 10), Flipped(2, p, 20)]
    case 3 => [Unset(1, 70), Unset(3, 30)]
    case 4 => [Unset(1, 40), Flipped(1, p, 30), Unset(2, 10), Flipped(2, p, 20)]
    case 5 => [Unset(1, 40), Flipped(1, p, 30), Unset(2, 10), Flipped(2, p, 20)]
    case 6 => [Unset(1, 40), Flipped(1, p, 30), Unset(2, 10), Flipped(2, p, 20)]
    case 7 => [Unset(1, 50), Flipped(1, p, 50)]
    case _ => [Unset(2, 100)]
  }

  function MelodyRhythmRule(pos: int, prevRest: bool): (cs: seq<Candidate>)
    ensures WellShaped(cs, pos, prevRest)
    ensures pos < 0 && pos % 8 != 0 ==> cs == [Unset(2, 100)]
  {
    var p := prevRest;
    match CyclePosition(pos)
    case 0 => [Unset(1, 10), Flipped(1, p, 30), Unset(2, 10), Flipped(2, p, 30), Unset(3, 20)]
    case 1 => [Unset(1, 60), Flipped(1, p, 20), Unset(2, 20), Flipped(2, p, 10)]
    case 2 => [Unset(1, 40), Flipped(1, p, 30), Unset(2, 10), Flipped(2, p, 20)]
    case 3 => [Unset(1, 50), Unset(2, 20), Unset(3, 30)]
    case 4 => [Unset(1, 40), Flipped(1, p, 30), Unset(2, 10), Flipped(2, p, 20)]
    case 5 => [Unset(1, 50), Flipped(1, p, 30), Unset(2, 10), Flipped(2, p, 10)]
    case 6 => [Unset(1, 40), Flipped(1, p, 20), Unset(2, 20), Flipped(2, p, 20)]
    case 7 => [Unset(1, 70), Flipped(1, p, 30)]
    case _ => [Unset(2, 100)]
  }

  function RhythmRule(part: Part, pos: int, prevRest: bool): (cs: seq<Candidate>)
    ensures WellShaped(cs, pos, prevRest)
  {
    match part
    case BassLine => BassLineRhythmRule(pos, prevRest)
    case Melody => MelodyRhythmRule(pos, prevRest)
  }

  /** `e` is one of the candidates, with positive weight. */
  predicate Offers(cs: seq<Candidate>, e: RhythmEvent)
  {
    exists c :: c in cs && c.value == e && c.weight > 0
  }

  /** The rest flag the rule sees before event `i`: the previous event's, or
      `first` (whatever the sampler passes in) before the first event. */
  function PrevRest(evs: seq<RhythmEvent>, i: nat, first: bool): bool
    requires i <= |evs|
  {
    if i == 0 then first else evs[i - 1].isRest
  }

  /** A rhythm the sampler can produce for `part`: each event is a candidate
      with positive weight at the position where it starts. */
  predicate RhythmAdmissible(part: Part, evs: seq<RhythmEvent>, first: bool)
  {
    forall i :: 0 <= i < |evs| ==> Offers(RhythmRule(part, Onset(evs, i), PrevRest(evs, i, first)), evs[i])
  }

  /** Admissible rhythms are made of half, whole and dotted beats, never hold
      two rests in a row, and no event runs across the end of a four-beat cycle. */
  lemma RhythmShape(part: Part, evs: seq<RhythmEvent>, first: bool)
    requires RhythmAdmissible(part, evs, first)
    ensures forall i :: 0 <= i < |evs| ==> evs[i].duration in {1, 2, 3}
    ensures forall i :: 0 <= i < |evs| ==> Onset(evs, i) % 8 + evs[i].duration <= 8
    ensures forall i :: 1 <= i < |evs| && evs[i - 1].isRest ==> !evs[i].isRest
    ensures Progresses(evs)
  {
    forall i | 0 <= i < |evs|
      ensures evs[i].duration in {1, 2, 3}
      ensures Onset(evs, i) % 8 + evs[i].duration <= 8
      ensures i >= 1 && evs[i - 1].isRest ==> !evs[i].isRest
    {
      var cs := RhythmRule(part, Onset(evs, i), PrevRest(evs, i, first));
      assert Offers(cs, evs[i]);
      var c :| c in cs && c.value == evs[i] && c.weight > 0;
    }
  }

  /** Consequently every event of an admissible rhythm lies inside one four-beat cycle. */
  lemma RhythmStaysInBar(part: Part, evs: seq<RhythmEvent>, first: bool, i: nat)
    requires RhythmAdmissible(part, evs, first)
    requires i < |evs|
    ensures (Onset(evs, i) + evs[i].duration - 1) / 8 == Onset(evs, i) / 8
  {
    RhythmShape(part, evs, first);
    var x := Onset(evs, i);
    assert x % 8 + evs[i].duration <= 8;
    assert x == 8 * (x / 8) + x % 8;
  }
}
