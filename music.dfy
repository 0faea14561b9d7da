/** The symbolic song shared by the composer and the scheduler.

    Time is counted in integer half-beats: every duration the song builder
    produces is a multiple of half a beat, so a duration of 0.5 beat is 1,
    a beat is 2 and the ending's eight beats are 16. */
module Music {

  datatype Option<T> = None | Some(value: T)

  datatype Result<T, E> = Ok(value: T) | Err(error: E)

  /** One rhythm event. A rhythm entry whose `isRest` is left unset behaves as
      `false` in every place it is read, so it is `false` here. */
  datatype RhythmEvent = RhythmEvent(duration: nat, isRest: bool)

  /** One section of the song (A, B or C), and the shape of the ending. */
  datatype Segment = Segment(
    chordProgression: seq<nat>,
    bassLineRhythm: seq<RhythmEvent>,
    melodyRhythm: seq<RhythmEvent>,
    notes: seq<nat>)

  datatype Song = Song(form: seq<nat>, segments: seq<Segment>, ending: Segment)

  /** `x` has positive weight under the weight vector `w` (indexed by state;
      weights are integer hundredths of a probability). */
  predicate Allows(w: seq<nat>, x: nat)
  {
    x < |w| && w[x] > 0
  }

  /** Total length, in half-beats, of a run of rhythm events. */
  function Total(evs: seq<RhythmEvent>): nat
    decreases |evs|
  {
    if evs == [] then 0 else Total(evs[..|evs| - 1]) + evs[|evs| - 1].duration
  }

  lemma TotalSnoc(evs: seq<RhythmEvent>, e: RhythmEvent)
    ensures Total(evs + [e]) == Total(evs) + e.duration
  {
    assert (evs + [e])[..|evs|] == evs;
  }

  lemma {:induction false} TotalAppend(a: seq<RhythmEvent>, b: seq<RhythmEvent>)
    ensures Total(a + b) == Total(a) + Total(b)
    decreases |b|
  {
    if b == [] {
      assert a + b == a;
    } else {
      var k := |b| - 1;
      assert a + b == (a + b[..k]) + [b[k]];
      assert b == b[..k] + [b[k]];
      TotalSnoc(a + b[..k], b[k]);
      TotalSnoc(b[..k], b[k]);
      TotalAppend(a, b[..k]);
    }
  }

  /** A prefix never lasts longer than the whole run. */
  lemma {:induction false} TotalPrefix(evs: seq<RhythmEvent>, k: nat)
    requires k <= |evs|
    ensures Total(evs[..k]) <= Total(evs)
  {
    assert evs == evs[..k] + evs[k..];
    TotalAppend(evs[..k], evs[k..]);
  }

  /** The half-beat position at which event `k` of a run starts. */
  function Onset(evs: seq<RhythmEvent>, k: nat): nat
    requires k <= |evs|
  {
    Total(evs[..k])
  }

  /** The first `n` events of a rhythm played in a loop: event `k` is `r[k % |r|]`. */
  function Cycle(r: seq<RhythmEvent>, n: nat): (c: seq<RhythmEvent>)
    requires |r| > 0
    ensures |c| == n
  {
    seq(n, k requires 0 <= k < n => r[k % |r|])
  }

  lemma CycleSnoc(r: seq<RhythmEvent>, n: nat)
    requires |r| > 0
    ensures Cycle(r, n + 1) == Cycle(r, n) + [r[n % |r|]]
    ensures Cycle(r, n + 1)[..n] == Cycle(r, n)
  {
    assert Cycle(r, n + 1) == Cycle(r, n) + [r[n % |r|]];
  }

  /** Every event of the run lasts at least one half-beat, so a loop over it
      always makes progress. */
  predicate Progresses(evs: seq<RhythmEvent>)
  {
    forall k :: 0 <= k < |evs| ==> evs[k].duration > 0
  }

  /** The longest event of a run. */
  function MaxDuration(evs: seq<RhythmEvent>): (m: nat)
    ensures forall k :: 0 <= k < |evs| ==> evs[k].duration <= m
    ensures |evs| > 0 ==> exists k :: 0 <= k < |evs| && evs[k].duration == m
    decreases |evs|
  {
    if evs == [] then 0
    else
      var m := MaxDuration(evs[1..]);
      assert forall k :: 1 <= k < |evs| ==> evs[k] == evs[1..][k - 1];
      if evs[0].duration >= m then evs[0].duration else m
  }

  // ---------------------------------------------------------- arithmetic

  lemma {:induction false} MulMonotone(a: nat, b: nat, d: nat)
    requires a <= b
    ensures a * d <= b * d
    decreases b - a
  {
    if a < b {
      MulMonotone(a, b - 1, d);
      assert b * d == (b - 1) * d + d;
    }
  }

  /** Euclidean division is determined by any split into a multiple of the
      divisor and a remainder below it. */
  lemma DivOfSplit(x: nat, d: nat, q: nat, b: nat)
    requires d > 0 && b < d && x == q * d + b
    ensures x / d == q && x % d == b
  {
    var q' := x / d;
    assert x == q' * d + x % d;
    if q' > q {
      MulMonotone(q + 1, q', d);
    } else if q' < q {
      MulMonotone(q' + 1, q, d);
    }
  }
}
