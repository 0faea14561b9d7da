/** Triggers on a half-beat timeline, and the two ways the scheduler keeps
    track of which bar an event falls in.

    A loop over a rhythm plays event after event and emits one trigger per
    event that is not a rest, at the event's onset. To pick the chord, the
    scheduler counts bars as it goes: in the intro and the ending it takes
    whole bars off an accumulator (so the count is the true bar number),
    while in the body it restarts the accumulator from zero whenever it
    reaches a bar (so any excess is dropped). */
module Timeline {
  import opened Music

  datatype Track = BassDrum | SnareDrum | Bass | Melody

  /** One call to an instrument: its start in half-beats from the start of
      the song, and for the pitched tracks the chord or note id and the
      duration in half-beats (drum triggers carry 0 for both). */
  datatype Trigger = Trigger(track: Track, start: nat, id: nat, duration: nat)

  function Hit(track: Track, start: nat): Trigger
  {
    Trigger(track, start, 0, 0)
  }

  /** The number of triggers on `track`. */
  function Count(ts: seq<Trigger>, track: Track): (n: nat)
    ensures n <= |ts|
    decreases |ts|
  {
    if ts == [] then 0
    else Count(ts[..|ts| - 1], track) + (if ts[|ts| - 1].track == track then 1 else 0)
  }

  lemma {:induction false} CountAppend(a: seq<Trigger>, b: seq<Trigger>, track: Track)
    ensures Count(a + b, track) == Count(a, track) + Count(b, track)
    decreases |b|
  {
    if b == [] {
      assert a + b == a;
    } else {
      var k := |b| - 1;
      assert (a + b)[..|a + b| - 1] == a + b[..k];
      CountAppend(a, b[..k], track);
    }
  }

  /** The starts of the triggers on `track`, in order. */
  function Starts(ts: seq<Trigger>, track: Track): (s: seq<nat>)
    ensures |s| == Count(ts, track)
    decreases |ts|
  {
    if ts == [] then []
    else Starts(ts[..|ts| - 1], track) + (if ts[|ts| - 1].track == track then [ts[|ts| - 1].start] else [])
  }

  lemma {:induction false} StartsAppend(a: seq<Trigger>, b: seq<Trigger>, track: Track)
    ensures Starts(a + b, track) == Starts(a, track) + Starts(b, track)
    decreases |b|
  {
    if b == [] {
      assert a + b == a;
    } else {
      var k := |b| - 1;
      assert (a + b)[..|a + b| - 1] == a + b[..k];
      StartsAppend(a, b[..k], track);
    }
  }

  /** A single trigger counts, and contributes its start, on its own track only. */
  lemma StartsSingle(t: Trigger, track: Track)
    ensures Starts([t], track) == if t.track == track then [t.start] else []
    ensures Count([t], track) == if t.track == track then 1 else 0
  {
    assert [t][..0] == [];
  }

  // ------------------------------------------------------------- rendering

  /** One trigger on `track` for each event of `evs` that is not a rest, at
      `origin` plus the event's onset, carrying the event's id and duration. */
  function Render(track: Track, evs: seq<RhythmEvent>, ids: seq<nat>, origin: nat): (r: seq<Trigger>)
    requires |ids| == |evs|
    ensures |r| <= |evs|
    decreases |evs|
  {
    if evs == [] then []
    else
      var k := |evs| - 1;
      Render(track, evs[..k], ids[..k], origin)
        + (if evs[k].isRest then [] else [Trigger(track, origin + Total(evs[..k]), ids[k], evs[k].duration)])
  }

  lemma RenderSnoc(track: Track, evs: seq<RhythmEvent>, ids: seq<nat>, e: RhythmEvent, id: nat, origin: nat)
    requires |ids| == |evs|
    ensures Render(track, evs + [e], ids + [id], origin)
         == Render(track, evs, ids, origin)
            + (if e.isRest then [] else [Trigger(track, origin + Total(evs), id, e.duration)])
  {
    assert (evs + [e])[..|evs|] == evs;
    assert (ids + [id])[..|ids|] == ids;
  }

  /** Every trigger lies on its track, carries one of the ids, and sounds
      within the span of the events. */
  lemma {:induction false} RenderBounds(track: Track, evs: seq<RhythmEvent>, ids: seq<nat>, origin: nat)
    requires |ids| == |evs|
    ensures forall t :: t in Render(track, evs, ids, origin) ==> t.track == track && t.id in ids
    ensures forall t :: t in Render(track, evs, ids, origin) ==>
      origin <= t.start && t.start + t.duration <= origin + Total(evs)
    decreases |evs|
  {
    if evs != [] {
      var k := |evs| - 1;
      var init := evs[..k];
      assert evs == init + [evs[k]];
      assert ids == ids[..k] + [ids[k]];
      RenderBounds(track, init, ids[..k], origin);
      RenderSnoc(track, init, ids[..k], evs[k], ids[k], origin);
      TotalSnoc(init, evs[k]);
    }
  }

  /** The triggers of one track never overlap: each one ends by the time
      the next one starts. */
  lemma {:induction false} RenderMonophonic(track: Track, evs: seq<RhythmEvent>, ids: seq<nat>, origin: nat)
    requires |ids| == |evs|
    ensures var r := Render(track, evs, ids, origin);
      forall i, j :: 0 <= i < j < |r| ==> r[i].start + r[i].duration <= r[j].start
    decreases |evs|
  {
    if evs != [] {
      var k := |evs| - 1;
      assert evs == evs[..k] + [evs[k]];
      assert ids == ids[..k] + [ids[k]];
      RenderMonophonic(track, evs[..k], ids[..k], origin);
      RenderBounds(track, evs[..k], ids[..k], origin);
      RenderSnoc(track, evs[..k], ids[..k], evs[k], ids[k], origin);
      var p := Render(track, evs[..k], ids[..k], origin);
      assert forall i :: 0 <= i < |p| ==> p[i] in p;
    }
  }

  /** With no rests, event `k` gives trigger `k`, at its onset. */
  lemma {:induction false} RenderAllSounding(track: Track, evs: seq<RhythmEvent>, ids: seq<nat>, origin: nat)
    requires |ids| == |evs|
    requires forall k :: 0 <= k < |evs| ==> !evs[k].isRest
    ensures var r := Render(track, evs, ids, origin);
      && |r| == |evs|
      && forall k :: 0 <= k < |evs| ==> r[k] == Trigger(track, origin + Onset(evs, k), ids[k], evs[k].duration)
    decreases |evs|
  {
    if evs != [] {
      var k := |evs| - 1;
      var init := evs[..k];
      assert evs == init + [evs[k]];
      assert ids == ids[..k] + [ids[k]];
      var ids' := ids[..k];
      RenderAllSounding(track, init, ids', origin);
      RenderSnoc(track, init, ids', evs[k], ids[k], origin);
      var p := Render(track, init, ids', origin);
      var r := Render(track, evs, ids, origin);
      assert r == p + [Trigger(track, origin + Total(init), ids[k], evs[k].duration)];
      forall j | 0 <= j < |evs|
        ensures r[j] == Trigger(track, origin + Onset(evs, j), ids[j], evs[j].duration)
      {
        if j < k {
          assert init[..j] == evs[..j];
          assert r[j] == p[j];
        }
      }
    }
  }

  // ------------------------------------------------------ true bar numbers

  /** The chord of the bar that contains position `x`, the progression
      repeating bar by bar. */
  function ChordAt(chords: seq<nat>, barLen: nat, x: int): nat
    requires |chords| > 0 && barLen > 0
  {
    chords[(x / barLen) % |chords|]
  }

  /** The chord of the bar each event starts in, when the bar count starts
      `phase` half-beats into a bar: event `k` gets chord number
      ((phase + onset) div barLen) mod |chords|. */
  function BarChords(evs: seq<RhythmEvent>, chords: seq<nat>, barLen: nat, phase: nat): (ids: seq<nat>)
    requires |chords| > 0 && barLen > 0
    ensures |ids| == |evs|
  {
    seq(|evs|, k requires 0 <= k < |evs| => ChordAt(chords, barLen, phase + Onset(evs, k)))
  }

  lemma BarChordsSnoc(evs: seq<RhythmEvent>, e: RhythmEvent, chords: seq<nat>, barLen: nat, phase: nat)
    requires |chords| > 0 && barLen > 0
    ensures BarChords(evs + [e], chords, barLen, phase)
         == BarChords(evs, chords, barLen, phase) + [ChordAt(chords, barLen, phase + Total(evs))]
  {
    var s := evs + [e];
    forall k | 0 <= k <= |evs| ensures Onset(s, k) == Onset(evs, k) {
      assert s[..k] == evs[..k];
    }
    assert evs[..|evs|] == evs;
  }

  /** Rendered with true bar numbers, every trigger carries the chord of
      the bar in which it starts. */
  lemma {:induction false} RenderPlaysBarChord(track: Track, evs: seq<RhythmEvent>, chords: seq<nat>, barLen: nat, phase: nat, origin: nat)
    requires |chords| > 0 && barLen > 0
    ensures forall t :: t in Render(track, evs, BarChords(evs, chords, barLen, phase), origin) ==>
      t.id == ChordAt(chords, barLen, phase + t.start - origin)
    decreases |evs|
  {
    if evs != [] {
      var k := |evs| - 1;
      var init := evs[..k];
      var e := evs[k];
      assert evs == init + [e];
      var pre := BarChords(init, chords, barLen, phase);
      var id := ChordAt(chords, barLen, phase + Total(init));
      var all := BarChords(evs, chords, barLen, phase);
      BarChordsSnoc(init, e, chords, barLen, phase);
      assert all == pre + [id];
      RenderPlaysBarChord(track, init, chords, barLen, phase, origin);
      RenderSnoc(track, init, pre, e, id, origin);
      var last := Trigger(track, origin + Total(init), id, e.duration);
      assert Render(track, evs, all, origin) == Render(track, init + [e], pre + [id], origin);
      assert phase + last.start - origin == phase + Total(init);
    }
  }

  /** One more event of a looped rhythm rendered with true bar numbers:
      if it is not a rest it adds one trigger, at the loop's current
      position, carrying the chord of the bar that position lies in. */
  lemma BarLoopStep(track: Track, r: seq<RhythmEvent>, chords: seq<nat>, barLen: nat, phase: nat, origin: nat,
                    j: nat, measure: nat, beatInMeasure: nat)
    requires |r| > 0 && |chords| > 0 && barLen > 0
    requires measure * barLen + beatInMeasure == phase + Total(Cycle(r, j)) && beatInMeasure < barLen
    ensures Total(Cycle(r, j + 1)) == Total(Cycle(r, j)) + r[j % |r|].duration
    ensures Render(track, Cycle(r, j + 1), BarChords(Cycle(r, j + 1), chords, barLen, phase), origin)
         == Render(track, Cycle(r, j), BarChords(Cycle(r, j), chords, barLen, phase), origin)
            + (if r[j % |r|].isRest then []
               else [Trigger(track, origin + Total(Cycle(r, j)), chords[measure % |chords|], r[j % |r|].duration)])
  {
    var e := r[j % |r|];
    var evs := Cycle(r, j);
    DivOfSplit(phase + Total(evs), barLen, measure, beatInMeasure);
    CycleSnoc(r, j);
    TotalSnoc(evs, e);
    BarChordsSnoc(evs, e, chords, barLen, phase);
    RenderSnoc(track, evs, BarChords(evs, chords, barLen, phase), e, chords[measure % |chords|], origin);
  }

  // ------------------------------------------------------ resetting counter

  /** The body's bar counter after playing `evs` from the start of a section:
      the pair (bars counted, half-beats since the last count). A bar is
      counted when the accumulator reaches the bar length, and the
      accumulator then restarts from zero. */
  function ResetCounter(evs: seq<RhythmEvent>, barLen: nat): (c: (nat, nat))
    requires barLen > 0
    ensures c.1 < barLen
    decreases |evs|
  {
    if evs == [] then (0, 0)
    else
      var k := |evs| - 1;
      var c := ResetCounter(evs[..k], barLen);
      var b := c.1 + evs[k].duration;
      if b >= barLen then (c.0 + 1, 0) else (c.0, b)
  }

  /** The counter never runs ahead of the time played: whatever runs past
      a bar line is dropped, never added. */
  lemma {:induction false} ResetCounterWithin(evs: seq<RhythmEvent>, barLen: nat)
    requires barLen > 0
    ensures Progress(ResetCounter(evs, barLen), barLen) <= Total(evs)
    decreases |evs|
  {
    if evs != [] {
      var k := |evs| - 1;
      assert evs == evs[..k] + [evs[k]];
      ResetCounterWithin(evs[..k], barLen);
      ResetCounterSnoc(evs[..k], evs[k], barLen);
      TotalSnoc(evs[..k], evs[k]);
      var c := ResetCounter(evs[..k], barLen);
      if c.1 + evs[k].duration >= barLen {
        MulSucc(c.0, barLen);
      }
    }
  }

  lemma ResetCounterSnoc(evs: seq<RhythmEvent>, e: RhythmEvent, barLen: nat)
    requires barLen > 0
    ensures ResetCounter(evs + [e], barLen)
         == (var c := ResetCounter(evs, barLen);
             if c.1 + e.duration >= barLen then (c.0 + 1, 0) else (c.0, c.1 + e.duration))
  {
    assert (evs + [e])[..|evs|] == evs;
  }

  /** The chord each event gets from the resetting counter. */
  function ResetChords(evs: seq<RhythmEvent>, chords: seq<nat>, barLen: nat): (ids: seq<nat>)
    requires |chords| > 0 && barLen > 0
    ensures |ids| == |evs|
  {
    seq(|evs|, k requires 0 <= k < |evs| => chords[ResetCounter(evs[..k], barLen).0 % |chords|])
  }

  lemma ResetChordsSnoc(evs: seq<RhythmEvent>, e: RhythmEvent, chords: seq<nat>, barLen: nat)
    requires |chords| > 0 && barLen > 0
    ensures ResetChords(evs + [e], chords, barLen)
         == ResetChords(evs, chords, barLen) + [chords[ResetCounter(evs, barLen).0 % |chords|]]
  {
    var s := evs + [e];
    forall k | 0 <= k <= |evs| ensures s[..k] == evs[..k] { }
    assert s[..|evs|] == evs;
  }

  /** No event runs across a bar line: each one ends by the next bar. */
  predicate RespectsBars(evs: seq<RhythmEvent>, barLen: nat)
    requires barLen > 0
  {
    forall k :: 0 <= k < |evs| ==> Onset(evs, k) % barLen + evs[k].duration <= barLen
  }

  lemma RespectsBarsPrefix(evs: seq<RhythmEvent>, barLen: nat, k: nat)
    requires barLen > 0 && k <= |evs|
    requires RespectsBars(evs, barLen)
    ensures RespectsBars(evs[..k], barLen)
  {
    var p := evs[..k];
    forall j | 0 <= j < |p| ensures Onset(p, j) % barLen + p[j].duration <= barLen {
      assert p[..j] == evs[..j];
      assert Onset(evs, j) % barLen + evs[j].duration <= barLen;
    }
  }

  /** Adding `d` half-beats to a position that stays within its bar either
      reaches the next bar line exactly or stays in the same bar. */
  lemma StepWithinBar(t: nat, d: nat, barLen: nat)
    requires barLen > 0 && t % barLen + d <= barLen
    ensures ((t + d) / barLen, (t + d) % barLen)
         == if t % barLen + d >= barLen then (t / barLen + 1, 0) else (t / barLen, t % barLen + d)
  {
    var q := t / barLen;
    assert t == q * barLen + t % barLen;
    if t % barLen + d >= barLen {
      assert (q + 1) * barLen == q * barLen + barLen;
      DivOfSplit(t + d, barLen, q + 1, 0);
    } else {
      DivOfSplit(t + d, barLen, q, t % barLen + d);
    }
  }

  /** When no event crosses a bar line, the resetting counter loses nothing:
      it equals the true bar number and the offset into the bar. */
  lemma {:induction false} ResetCounterExact(evs: seq<RhythmEvent>, barLen: nat)
    requires barLen > 0
    requires RespectsBars(evs, barLen)
    ensures ResetCounter(evs, barLen) == (Total(evs) / barLen, Total(evs) % barLen)
    decreases |evs|
  {
    if evs != [] {
      var k := |evs| - 1;
      var init := evs[..k];
      assert evs == init + [evs[k]];
      RespectsBarsPrefix(evs, barLen, k);
      ResetCounterExact(init, barLen);
      var t := Total(init);
      var d := evs[k].duration;
      assert Onset(evs, k) == t;
      assert t % barLen + d <= barLen;
      TotalSnoc(init, evs[k]);
      ResetCounterSnoc(init, evs[k], barLen);
      StepWithinBar(t, d, barLen);
      assert Total(evs) == t + d;
      var q, m := t / barLen, t % barLen;
      assert ResetCounter(init, barLen) == (q, m);
      assert ResetCounter(evs, barLen) == if m + d >= barLen then (q + 1, 0) else (q, m + d);
    } else {
      DivOfSplit(0, barLen, 0, 0);
    }
  }

  /** Hence, on such rhythms, the body's chord choice agrees with the
      chord of the bar each event starts in. */
  lemma ResetChordsExact(evs: seq<RhythmEvent>, chords: seq<nat>, barLen: nat)
    requires |chords| > 0 && barLen > 0
    requires RespectsBars(evs, barLen)
    ensures ResetChords(evs, chords, barLen) == BarChords(evs, chords, barLen, 0)
  {
    forall k | 0 <= k < |evs|
      ensures ResetChords(evs, chords, barLen)[k] == BarChords(evs, chords, barLen, 0)[k]
    {
      RespectsBarsPrefix(evs, barLen, k);
      ResetCounterExact(evs[..k], barLen);
    }
  }

  /** The state of a loop under the resetting counter after it has played
      `evs`: the counter, the time played and the triggers issued so far. */
  ghost predicate ResetLoopAt(track: Track, evs: seq<RhythmEvent>, chords: seq<nat>, barLen: nat, origin: nat,
                              measure: nat, beatInMeasure: nat, length: nat, ts: seq<Trigger>)
    requires |chords| > 0 && barLen > 0
  {
    && (measure, beatInMeasure) == ResetCounter(evs, barLen)
    && length == Total(evs)
    && ts == Render(track, evs, ResetChords(evs, chords, barLen), origin)
  }

  /** One more event `e` of the loop: if it is not a rest it adds one
      trigger, at the time played so far, carrying the chord the counter
      has reached; the counter then moves on by the event's duration, and
      restarts from zero once it reaches a bar. */
  lemma ResetLoopStep(track: Track, evs: seq<RhythmEvent>, e: RhythmEvent, chords: seq<nat>, barLen: nat, origin: nat,
                      measure: nat, beatInMeasure: nat, length: nat, ts: seq<Trigger>)
    requires |chords| > 0 && barLen > 0
    requires ResetLoopAt(track, evs, chords, barLen, origin, measure, beatInMeasure, length, ts)
    ensures var b := beatInMeasure + e.duration;
      ResetLoopAt(track, evs + [e], chords, barLen, origin,
                  if b >= barLen then measure + 1 else measure,
                  if b >= barLen then 0 else b,
                  length + e.duration,
                  ts + if e.isRest then [] else [Trigger(track, length + origin, chords[measure % |chords|], e.duration)])
  {
    TotalSnoc(evs, e);
    ResetCounterSnoc(evs, e, barLen);
    ResetChordsSnoc(evs, e, chords, barLen);
    RenderSnoc(track, evs, ResetChords(evs, chords, barLen), e, chords[measure % |chords|], origin);
  }

  // --------------------------------------------------------- loop lengths

  /** Playing one more event of a looped rhythm adds that event's length. */
  lemma CycleTotalSnoc(r: seq<RhythmEvent>, n: nat)
    requires |r| > 0 && Progresses(r)
    ensures Total(Cycle(r, n + 1)) == Total(Cycle(r, n)) + r[n % |r|].duration
    ensures Total(Cycle(r, n + 1)) > Total(Cycle(r, n))
  {
    CycleSnoc(r, n);
    TotalSnoc(Cycle(r, n), r[n % |r|]);
  }

  /** A longer stretch of a looped rhythm lasts at least as long. */
  lemma TotalCycleMonotone(r: seq<RhythmEvent>, k: nat, n: nat)
    requires |r| > 0 && k <= n
    ensures Total(Cycle(r, k)) <= Total(Cycle(r, n))
  {
    assert Cycle(r, n)[..k] == Cycle(r, k);
    TotalPrefix(Cycle(r, n), k);
  }

  /** How many events of the looped rhythm `r` a loop plays before their
      total reaches `limit`: the least such count. */
  function StepsToReach(r: seq<RhythmEvent>, limit: nat): nat
    requires |r| > 0 && Progresses(r)
  {
    StepsToReachFrom(r, 0, limit)
  }

  function StepsToReachFrom(r: seq<RhythmEvent>, n: nat, limit: nat): nat
    requires |r| > 0 && Progresses(r)
    decreases limit - Total(Cycle(r, n))
  {
    if Total(Cycle(r, n)) >= limit then n
    else
      CycleTotalSnoc(r, n);
      StepsToReachFrom(r, n + 1, limit)
  }

  /** Searching on from a count whose events still fall short of `limit`
      stops at the first count whose events reach it. */
  lemma {:induction false} StepsToReachFromReaches(r: seq<RhythmEvent>, n: nat, limit: nat)
    requires |r| > 0 && Progresses(r)
    requires n > 0 ==> Total(Cycle(r, n - 1)) < limit
    ensures Total(Cycle(r, StepsToReachFrom(r, n, limit))) >= limit
    ensures StepsToReachFrom(r, n, limit) > 0 ==> Total(Cycle(r, StepsToReachFrom(r, n, limit) - 1)) < limit
    decreases limit - Total(Cycle(r, n))
  {
    if Total(Cycle(r, n)) < limit {
      CycleTotalSnoc(r, n);
      StepsToReachFromReaches(r, n + 1, limit);
    }
  }

  /** `StepsToReach` is the least count of events whose total reaches
      `limit`. */
  lemma StepsToReachReaches(r: seq<RhythmEvent>, limit: nat)
    requires |r| > 0 && Progresses(r)
    ensures Total(Cycle(r, StepsToReach(r, limit))) >= limit
    ensures StepsToReach(r, limit) > 0 ==> Total(Cycle(r, StepsToReach(r, limit) - 1)) < limit
  {
    StepsToReachFromReaches(r, 0, limit);
  }

  /** How many events a loop over the looped rhythm `r` plays until the
      resetting counter has counted `bars` bars: the least such count. */
  function StepsToBars(r: seq<RhythmEvent>, barLen: nat, bars: nat): nat
    requires |r| > 0 && Progresses(r) && barLen > 0
  {
    StepsToBarsFrom(r, barLen, bars, 0)
  }

  /** How far the resetting counter has got, in half-beats counted. */
  function Progress(c: (nat, nat), barLen: nat): nat
  {
    c.0 * barLen + c.1
  }

  lemma MulSucc(a: nat, barLen: nat)
    ensures (a + 1) * barLen == a * barLen + barLen
  {
  }

  /** Each event of positive length moves the counter on. */
  lemma ProgressGrows(evs: seq<RhythmEvent>, e: RhythmEvent, barLen: nat)
    requires barLen > 0 && e.duration > 0
    ensures Progress(ResetCounter(evs + [e], barLen), barLen) > Progress(ResetCounter(evs, barLen), barLen)
  {
    ResetCounterSnoc(evs, e, barLen);
    var c := ResetCounter(evs, barLen);
    var c' := ResetCounter(evs + [e], barLen);
    if c.1 + e.duration >= barLen {
      assert c' == (c.0 + 1, 0);
      MulSucc(c.0, barLen);
    } else {
      assert c' == (c.0, c.1 + e.duration);
    }
  }

  /** Before `bars` bars are counted the counter is below `bars` bars. */
  lemma ProgressBelow(c: (nat, nat), barLen: nat, bars: nat)
    requires c.1 < barLen && c.0 < bars
    ensures Progress(c, barLen) < bars * barLen
  {
    MulMonotone(c.0 + 1, bars, barLen);
    MulSucc(c.0, barLen);
  }

  /** One more event before the count reaches `bars` moves the counter on,
      and the counter is still below `bars` bars. */
  lemma BarsStep(r: seq<RhythmEvent>, barLen: nat, bars: nat, n: nat)
    requires |r| > 0 && Progresses(r) && barLen > 0
    requires ResetCounter(Cycle(r, n), barLen).0 < bars
    ensures Progress(ResetCounter(Cycle(r, n), barLen), barLen) < bars * barLen
    ensures Progress(ResetCounter(Cycle(r, n + 1), barLen), barLen) > Progress(ResetCounter(Cycle(r, n), barLen), barLen)
  {
    CycleSnoc(r, n);
    ProgressBelow(ResetCounter(Cycle(r, n), barLen), barLen, bars);
    ProgressGrows(Cycle(r, n), r[n % |r|], barLen);
  }

  function StepsToBarsFrom(r: seq<RhythmEvent>, barLen: nat, bars: nat, n: nat): nat
    requires |r| > 0 && Progresses(r) && barLen > 0
    decreases bars * barLen - Progress(ResetCounter(Cycle(r, n), barLen), barLen)
  {
    var c := ResetCounter(Cycle(r, n), barLen);
    if c.0 >= bars then n
    else
      BarsStep(r, barLen, bars, n);
      StepsToBarsFrom(r, barLen, bars, n + 1)
  }

  /** Searching on from a count still below `bars` bars stops at the first
      count that reaches them. */
  lemma {:induction false} StepsToBarsFromReaches(r: seq<RhythmEvent>, barLen: nat, bars: nat, n: nat)
    requires |r| > 0 && Progresses(r) && barLen > 0
    requires n > 0 ==> ResetCounter(Cycle(r, n - 1), barLen).0 < bars
    ensures ResetCounter(Cycle(r, StepsToBarsFrom(r, barLen, bars, n)), barLen).0 >= bars
    ensures StepsToBarsFrom(r, barLen, bars, n) > 0 ==>
      ResetCounter(Cycle(r, StepsToBarsFrom(r, barLen, bars, n) - 1), barLen).0 < bars
    decreases bars * barLen - Progress(ResetCounter(Cycle(r, n), barLen), barLen)
  {
    var m := StepsToBarsFrom(r, barLen, bars, n);
    if ResetCounter(Cycle(r, n), barLen).0 < bars {
      BarsStep(r, barLen, bars, n);
      assert m == StepsToBarsFrom(r, barLen, bars, n + 1);
      StepsToBarsFromReaches(r, barLen, bars, n + 1);
    } else {
      assert m == n;
    }
  }

  /** `StepsToBars` is the least count of events after which the counter
      has counted `bars` bars. */
  lemma StepsToBarsReaches(r: seq<RhythmEvent>, barLen: nat, bars: nat)
    requires |r| > 0 && Progresses(r) && barLen > 0
    ensures ResetCounter(Cycle(r, StepsToBars(r, barLen, bars)), barLen).0 >= bars
    ensures StepsToBars(r, barLen, bars) > 0 ==>
      ResetCounter(Cycle(r, StepsToBars(r, barLen, bars) - 1), barLen).0 < bars
  {
    StepsToBarsFromReaches(r, barLen, bars, 0);
  }

  /** The resetting counter never goes back. */
  lemma {:induction false} ResetCounterMonotone(r: seq<RhythmEvent>, barLen: nat, k: nat, n: nat)
    requires |r| > 0 && barLen > 0 && k <= n
    ensures ResetCounter(Cycle(r, k), barLen).0 <= ResetCounter(Cycle(r, n), barLen).0
    decreases n - k
  {
    if k < n {
      ResetCounterMonotone(r, barLen, k, n - 1);
      CycleSnoc(r, n - 1);
      ResetCounterSnoc(Cycle(r, n - 1), r[(n - 1) % |r|], barLen);
    }
  }

  /** The count of a resetting counter goes up only together with a reset
      of the accumulator. */
  lemma CountedStepResets(r: seq<RhythmEvent>, barLen: nat, n: nat)
    requires |r| > 0 && barLen > 0
    requires ResetCounter(Cycle(r, n + 1), barLen).0 > ResetCounter(Cycle(r, n), barLen).0
    ensures ResetCounter(Cycle(r, n + 1), barLen).1 == 0
  {
    CycleSnoc(r, n);
    ResetCounterSnoc(Cycle(r, n), r[n % |r|], barLen);
  }

  /** With the counter resetting to zero, each counted bar takes at least a
      full bar of time. */
  lemma StepsToBarsLength(r: seq<RhythmEvent>, barLen: nat, bars: nat)
    requires |r| > 0 && Progresses(r) && barLen > 0
    ensures Total(Cycle(r, StepsToBars(r, barLen, bars))) >= bars * barLen
  {
    var n := StepsToBars(r, barLen, bars);
    var c := ResetCounter(Cycle(r, n), barLen);
    StepsToBarsReaches(r, barLen, bars);
    ResetCounterWithin(Cycle(r, n), barLen);
    MulMonotone(bars, c.0, barLen);
  }

  /** The position of the bar line at or before `x`. */
  function BarStart(x: nat, barLen: nat): nat
    requires barLen > 0
  {
    (x / barLen) * barLen
  }

  /** The number of whole bars needed to cover `length` half-beats. */
  function BarsToCover(length: nat, barLen: nat): (b: nat)
    requires barLen > 0
    ensures b * barLen >= length
    ensures b > 0 ==> (b - 1) * barLen < length
  {
    var b := (length + barLen - 1) / barLen;
    var s := (length + barLen - 1) % barLen;
    assert length + barLen - 1 == b * barLen + s;
    if b > 0 then
      MulSucc(b - 1, barLen);
      b
    else b
  }

  /** The bar line at or before `x` reaches `length` exactly when `x`
      reaches the end of the bars that cover `length`. */
  lemma BarStartAtLeast(x: nat, barLen: nat, length: nat)
    requires barLen > 0
    ensures BarStart(x, barLen) >= length <==> x >= BarsToCover(length, barLen) * barLen
  {
    var q := x / barLen;
    var b := BarsToCover(length, barLen);
    assert x == q * barLen + x % barLen;
    if q >= b {
      MulMonotone(b, q, barLen);
    } else {
      MulMonotone(q + 1, b, barLen);
      MulSucc(q, barLen);
      MulMonotone(q, b - 1, barLen);
    }
  }

  /** How many events of the looped rhythm `r` a loop plays while the true
      bar number, counted from `phase` half-beats into a bar, has not
      reached `length` half-beats: the least count after which the bar line
      before `phase` plus the total is at or past `length`. */
  function StepsToBarAtLeast(r: seq<RhythmEvent>, barLen: nat, phase: nat, length: nat): (n: nat)
    requires |r| > 0 && Progresses(r) && barLen > 0
    ensures BarStart(phase + Total(Cycle(r, n)), barLen) >= length
    ensures n > 0 ==> BarStart(phase + Total(Cycle(r, n - 1)), barLen) < length
  {
    var target := BarsToCover(length, barLen) * barLen;
    var n := StepsToReach(r, if target >= phase then target - phase else 0);
    StepsToReachReaches(r, if target >= phase then target - phase else 0);
    BarStartAtLeast(phase + Total(Cycle(r, n)), barLen, length);
    if n > 0 then
      BarStartAtLeast(phase + Total(Cycle(r, n - 1)), barLen, length);
      n
    else n
  }

  /** A loop that stops once its events reach `limit` goes on exactly while
      it has played fewer events than `StepsToReach`. */
  lemma ReachIndex(r: seq<RhythmEvent>, limit: nat, j: nat)
    requires |r| > 0 && Progresses(r)
    requires j <= StepsToReach(r, limit)
    ensures Total(Cycle(r, j)) < limit <==> j < StepsToReach(r, limit)
  {
    var n := StepsToReach(r, limit);
    StepsToReachReaches(r, limit);
    if j < n {
      TotalCycleMonotone(r, j, n - 1);
    }
  }

  /** The bar-counted loop goes on exactly while it has played fewer events
      than `StepsToBarAtLeast`: its bar count times the bar length is below
      `length` before that many events and not after. */
  lemma BarLoopIndex(r: seq<RhythmEvent>, barLen: nat, phase: nat, length: nat, j: nat, measure: nat, beatInMeasure: nat)
    requires |r| > 0 && Progresses(r) && barLen > 0
    requires j <= StepsToBarAtLeast(r, barLen, phase, length)
    requires measure * barLen + beatInMeasure == phase + Total(Cycle(r, j)) && beatInMeasure < barLen
    ensures measure * barLen < length <==> j < StepsToBarAtLeast(r, barLen, phase, length)
  {
    var n := StepsToBarAtLeast(r, barLen, phase, length);
    DivOfSplit(phase + Total(Cycle(r, j)), barLen, measure, beatInMeasure);
    if j < n {
      TotalCycleMonotone(r, j, n - 1);
      BarStartAtLeast(phase + Total(Cycle(r, j)), barLen, length);
      BarStartAtLeast(phase + Total(Cycle(r, n - 1)), barLen, length);
    }
  }

  /** The loop under the resetting counter goes on exactly while it has
      played fewer events than `StepsToBars`. */
  lemma ResetLoopIndex(r: seq<RhythmEvent>, barLen: nat, bars: nat, j: nat)
    requires |r| > 0 && Progresses(r) && barLen > 0
    requires j <= StepsToBars(r, barLen, bars)
    ensures ResetCounter(Cycle(r, j), barLen).0 < bars <==> j < StepsToBars(r, barLen, bars)
  {
    var n := StepsToBars(r, barLen, bars);
    StepsToBarsReaches(r, barLen, bars);
    if j < n {
      ResetCounterMonotone(r, barLen, j, n - 1);
    }
  }
}
