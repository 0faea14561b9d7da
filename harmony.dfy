/** The transition rules for the song form and for chord progressions.

    A rule maps the history of states drawn so far to a vector of weights,
    indexed by the next state; weights are integer hundredths of a
    probability. Each rule is an ordered cascade of exact matches on the
    history, and the first match wins. */
module Harmony {
  import opened Music

  // ---------------------------------------------------------------- form

  /** The weights of the next section index (0 = A, 1 = B, 2 = C). */
  function FormRule(prev: seq<nat>): (w: seq<nat>)
    ensures 1 <= |w| <= 3
    ensures prev == [] ==> w == [100]
    ensures |prev| == 6 && 2 !in prev ==> w == [0, 0, 100]
    ensures |prev| >= 4 && !(|prev| == 6 && 2 !in prev) && prev[|prev| - 2..] !in {[0, 0], [0, 1], [1, 0], [2, 0]} ==> w == [100]
  {
    if prev == [] then [100]
    else if prev == [0] then [50, 50]
    else if prev == [0, 0] then [0, 100]
    else if prev == [0, 1] then [90, 0, 10]
    else if prev == [0, 0, 1] then [80, 0, 20]
    else if prev == [0, 1, 0] then [0, 90, 10]
    else if prev == [0, 1, 2] then [80, 20, 0]
    // the C section must happen at least once
    else if |prev| == 6 && 2 !in prev then [0, 0, 100]
    else if |prev| < 2 then [100]
    else
      var recent := prev[|prev| - 2..];
      if recent == [0, 0] then [0, 100]
      else if recent == [0, 1] then [30, 0, 70]
      else if recent == [0, 2] then [100]
      else if recent == [1, 0] then [0, 60, 40]
      else if recent == [1, 2] then [100]
      else if recent == [2, 0] then [10, 80, 10]
      else [100]
  }

  /** Every history leaves the sampler a section to draw: some weight of
      the vector is positive. */
  lemma FormRuleLive(prev: seq<nat>)
    ensures exists k :: Allows(FormRule(prev), k)
  {
    var w := FormRule(prev);
    if w[0] > 0 {
      assert Allows(w, 0);
    } else {
      assert Allows(w, |w| - 1) || Allows(w, 1);
    }
  }

  /** A form the sampler can produce: every section has positive weight
      under the rule applied to the sections before it. */
  predicate FormAdmissible(form: seq<nat>)
  {
    forall i :: 0 <= i < |form| ==> Allows(FormRule(form[..i]), form[i])
  }

  /** Every admissible form starts with A and only names sections 0, 1 and 2. */
  lemma FormStates(form: seq<nat>)
    requires FormAdmissible(form)
    ensures forall i :: 0 <= i < |form| ==> form[i] <= 2
    ensures |form| > 0 ==> form[0] == 0
  {
    forall i | 0 <= i < |form| ensures form[i] <= 2 {
      assert Allows(FormRule(form[..i]), form[i]);
    }
    if |form| > 0 {
      assert form[..0] == [];
      assert Allows(FormRule(form[..0]), form[0]);
    }
  }

  /** The C section occurs in every admissible form of seven or more
      sections: the rule forces it at the seventh step if it is still missing. */
  lemma FormHasC(form: seq<nat>)
    requires FormAdmissible(form)
    requires |form| >= 7
    ensures 2 in form
  {
    var p := form[..6];
    if 2 !in p {
      assert Allows(FormRule(p), form[6]);
      assert FormRule(p) == [0, 0, 100];
      assert form[6] == 2;
    } else {
      var k :| 0 <= k < 6 && p[k] == 2;
      assert form[k] == 2;
    }
  }

  // -------------------------------------------------------------- chords

  /** The weights of the next chord (0 = I, 1 = ii, ..., 6 = vii°).
      The cascade has no final fallback: a history it does not list
      yields no vector at all (`None`). */
  function ChordRule(prev: seq<nat>): (w: Option<seq<nat>>)
    ensures prev == [] ==> w == Some([100])
    ensures w.Some? && prev != [] ==> |w.value| == 7 && w.value[6] == 0
    ensures |prev| > 3 ==> w == None
  {
    if prev == [] then Some([100])
    else if prev == [0] then Some([0, 9, 0, 28, 48, 15, 0])
    else if prev == [0, 1] then Some([18, 0, 18, 20, 14, 30, 0])
    else if prev == [0, 1, 0] then Some([0, 54, 0, 18, 22, 6, 0])
    else if prev == [0, 1, 2] then Some([0, 0, 0, 80, 0, 20, 0])
    else if prev == [0, 1, 3] then Some([0, 0, 0, 0, 67, 33, 0])
    else if prev == [0, 1, 4] then Some([35, 0, 0, 0, 45, 20, 0])
    else if prev == [0, 1, 5] then Some([50, 0, 0, 20, 0, 30, 0])
    else if prev == [0, 3] then Some([40, 0, 0, 0, 40, 20, 0])
    else if prev == [0, 3, 0] then Some([0, 0, 0, 60, 40, 0, 0])
    else if prev == [0, 3, 4] then Some([40, 0, 0, 20, 0, 40, 0])
    else if prev == [0, 3, 5] then Some([10, 0, 0, 20, 70, 0, 0])
    else if prev == [0, 4] then Some([20, 10, 0, 30, 0, 40, 0])
    else if prev == [0, 4, 0] then Some([0, 0, 0, 50, 50, 0, 0])
    else if prev == [0, 4, 1] then Some([0, 0, 0, 70, 0, 30, 0])
    else if prev == [0, 4, 3] then Some([50, 0, 0, 0, 25, 25, 0])
    else if prev == [0, 4, 5] then Some([0, 0, 0, 80, 20, 0, 0])
    else if prev == [0, 5] then Some([15, 0, 0, 45, 35, 0, 0])
    else if prev == [0, 5, 0] then Some([0, 0, 0, 30, 10, 60, 0])
    else if prev == [0, 5, 3] then Some([50, 0, 0, 0, 50, 0, 0])
    else if prev == [0, 5, 4] then Some([20, 10, 0, 70, 0, 0, 0])
    else None
  }

  predicate ChordAllows(w: Option<seq<nat>>, x: nat)
  {
    w.Some? && Allows(w.value, x)
  }

  /** A chord progression the sampler can produce: each chord has positive
      weight under a vector the rule actually returns for the chords before it. */
  predicate ChordAdmissible(chords: seq<nat>)
  {
    forall i :: 0 <= i < |chords| ==> ChordAllows(ChordRule(chords[..i]), chords[i])
  }

  lemma ChordPrefix(chords: seq<nat>, k: nat)
    requires ChordAdmissible(chords)
    requires k <= |chords|
    ensures ChordAdmissible(chords[..k])
  {
    forall i | 0 <= i < k ensures ChordAllows(ChordRule(chords[..k][..i]), chords[..k][i]) {
      assert chords[..k][..i] == chords[..i];
    }
  }

  /** Every history the sampler can reach within four chords has a vector:
      evaluation never runs off the end of the cascade. */
  lemma ChordRuleDefined(h: seq<nat>)
    requires ChordAdmissible(h)
    requires |h| <= 3
    ensures ChordRule(h).Some?
  {
    if |h| >= 1 {
      assert h[..0] == [];
      assert ChordAllows(ChordRule(h[..0]), h[0]);
    }
    if |h| >= 2 {
      assert h[..1] == [0];
      assert ChordAllows(ChordRule(h[..1]), h[1]);
    }
    if |h| == 3 {
      assert h[..2] == [0, h[1]];
      assert ChordAllows(ChordRule(h[..2]), h[2]);
      assert h == [0, h[1], h[2]];
      SecondChordDefined(h[1], h[2]);
    }
  }

  /** The third chord the rule allows after the root and a second chord
      still has a vector. */
  lemma SecondChordDefined(a: nat, b: nat)
    requires ChordAllows(ChordRule([0]), a)
    requires ChordAllows(ChordRule([0, a]), b)
    ensures ChordRule([0, a, b]).Some?
  {
    assert a in {1, 3, 4, 5};
    if a == 1 {
      assert b in {0, 2, 3, 4, 5};
    } else if a == 3 {
      assert b in {0, 4, 5};
    } else if a == 4 {
      assert b in {0, 1, 3, 5};
    } else {
      assert b in {0, 3, 4};
    }
  }

  /** A chord the rule allows after `prev` is one of chords 0 to 5, and
      `prev` has at most three chords. */
  lemma AllowedChord(prev: seq<nat>, x: nat)
    requires ChordAllows(ChordRule(prev), x)
    ensures |prev| <= 3 && x <= 5
  {
    var w := ChordRule(prev).value;
    if prev == [] {
      assert w == [100];
    } else {
      assert |w| == 7 && w[6] == 0;
    }
  }

  /** Admissible chord progressions start on the root chord, never use
      chord 6 and never grow beyond the four chords the cascade covers. */
  lemma ChordProgressionShape(chords: seq<nat>)
    requires ChordAdmissible(chords)
    ensures |chords| <= 4
    ensures |chords| > 0 ==> chords[0] == 0
    ensures forall i :: 0 <= i < |chords| ==> chords[i] <= 5
  {
    forall i | 0 <= i < |chords| ensures i <= 3 && chords[i] <= 5 {
      AllowedChord(chords[..i], chords[i]);
    }
    if |chords| > 0 {
      var last := |chords| - 1;
      assert last <= 3 && chords[last] <= 5;
      assert chords[..0] == [];
      assert ChordAllows(ChordRule(chords[..0]), chords[0]);
    }
  }

  /** The four-chord progressions the song builder asks for are exactly
      reachable: any admissible three-chord history extends to a fourth chord. */
  lemma ChordProgressionExtends(h: seq<nat>)
    requires ChordAdmissible(h)
    requires |h| == 3
    ensures exists x :: ChordAllows(ChordRule(h), x)
  {
    ChordRuleDefined(h);
    var w := ChordRule(h).value;
    var i :| 0 <= i < 7 && w[i] > 0 by {
      ChordVectorNonzero(h);
    }
    assert ChordAllows(ChordRule(h), i);
  }

  lemma ChordVectorNonzero(h: seq<nat>)
    requires ChordRule(h).Some?
    ensures exists i :: 0 <= i < |ChordRule(h).value| && ChordRule(h).value[i] > 0
  {
    var w := ChordRule(h).value;
    if w[0] > 0 { assert w[0] > 0; }
    else if w[3] > 0 { assert w[3] > 0; }
    else { assert w[4] > 0; }
  }
}
