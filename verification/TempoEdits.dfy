/** Local tempo edits re-anchor the timeline so that the beat position does not jump.
    The drift they leave against the exact integral of the tempo is bounded, in exact
    rational arithmetic. */
module TempoEdits {
  import opened Bytes
  import opened Link

  /** A call of link_set_local_tempo at ghost time g. */
  datatype Edit = Edit(bpm: real, g: i64)

  /** Ghost times do not decrease, tempos round to at least one microsecond per beat,
      and positions fit the wire. */
  predicate Legal(t: Timeline, es: seq<Edit>)
    decreases |es|
  {
    t.tempo > 0 &&
    (es == [] ||
     var e := es[0];
     && e.bpm != 0.0 && t.timeOrigin <= e.g
     && InI64(BeatsAt(t, e.g)) && InI64(UsPerBeat(e.bpm))
     && Legal(Retempo(t, e.bpm, e.g), es[1..]))
  }

  function After(t: Timeline, es: seq<Edit>): Timeline
    requires Legal(t, es)
    decreases |es|
  {
    if es == [] then t else After(Retempo(t, es[0].bpm, es[0].g), es[1..])
  }

  /** Micro-beats gained from ghost time a to b at a tempo. */
  function Gain(us: int, a: int, b: int): real
    requires us != 0
  {
    (b - a) as real * 1000000.0 / us as real
  }

  predicate PositiveTempos(es: seq<Edit>) {
    forall i :: 0 <= i < |es| ==> es[i].bpm != 0.0 && UsPerBeat(es[i].bpm) > 0
  }

  /** The exact integral of the piecewise constant tempo over the edits. */
  function Integral(us: int, from: int, es: seq<Edit>): real
    requires us > 0
    requires PositiveTempos(es)
    decreases |es|
  {
    if es == [] then 0.0
    else Gain(us, from, es[0].g) + Integral(UsPerBeat(es[0].bpm), es[0].g, es[1..])
  }

  lemma {:induction false} LegalTempos(t: Timeline, es: seq<Edit>)
    requires Legal(t, es)
    ensures PositiveTempos(es)
    decreases |es|
  {
    if es != [] {
      LegalTempos(Retempo(t, es[0].bpm, es[0].g), es[1..]);
    }
  }

  lemma GainNonNegative(us: int, a: int, b: int)
    requires us > 0 && a <= b
    ensures Gain(us, a, b) >= 0.0
  {
    var q, d := Gain(us, a, b), us as real;
    assert q * d == (b - a) as real * 1000000.0;
    NonNegativeFactor(q, d);
  }

  lemma NonNegativeFactor(q: real, d: real)
    requires d > 0.0 && q * d >= 0.0
    ensures q >= 0.0
  {
  }

  /** The tempo written for b beats per minute is the whole number of microseconds nearest to
      60 s / b, the larger of two equally near. */
  lemma TempoIsNearest(bpm: real)
    requires bpm > 0.0
    ensures var exact, us := 60_000_000.0 / bpm, UsPerBeat(bpm) as real;
            exact - 0.5 < us <= exact + 0.5
  {
    var exact := 60_000_000.0 / bpm;
    assert exact * bpm == 60_000_000.0;
    PositiveQuotient(exact, bpm);
  }

  lemma PositiveQuotient(q: real, d: real)
    requires d > 0.0 && q * d > 0.0
    ensures q > 0.0
  {
  }

  /** Before the origin a position is truncated toward the origin, not down. */
  lemma BeatsBeforeOrigin(t: Timeline, g: int)
    requires t.tempo > 0 && g <= t.timeOrigin
    ensures var back := Gain(t.tempo, g, t.timeOrigin);
            back - 1.0 < (t.beatOrigin - BeatsAt(t, g)) as real <= back
  {
    var x, back := (g - t.timeOrigin) as real * 1000000.0 / t.tempo as real, Gain(t.tempo, g, t.timeOrigin);
    var d := t.tempo as real;
    assert x * d == (g - t.timeOrigin) as real * 1000000.0;
    assert back * d == (t.timeOrigin - g) as real * 1000000.0;
    SameFactor(x, -back, d);
    GainNonNegative(t.tempo, g, t.timeOrigin);
  }

  lemma SameFactor(x: real, y: real, d: real)
    requires d > 0.0 && x * d == y * d
    ensures x == y
  {
  }

  /** An edit does not move the beat position: at the instant of the edit the new
      timeline gives what the old one gave. */
  lemma EditKeepsPhase(t: Timeline, bpm: real, g: i64)
    requires t.tempo != 0 && bpm != 0.0 && InI64(BeatsAt(t, g)) && InI64(UsPerBeat(bpm)) && UsPerBeat(bpm) != 0
    ensures BeatsAt(Retempo(t, bpm, g), g) == BeatsAt(t, g)
  {
    var u := Retempo(t, bpm, g);
    assert (g - u.timeOrigin) as real * 1000000.0 == 0.0;
  }

  /** Bounded drift: after k >= 1 edits at non-decreasing ghost times the beat origin
      is at most the exact integral of the tempo and less than k micro-beats below
      it; with no edit it is exact. */
  lemma {:induction false} DriftIsBounded(t: Timeline, es: seq<Edit>)
    requires Legal(t, es)
    ensures PositiveTempos(es)
    ensures var drift := t.beatOrigin as real + Integral(t.tempo, t.timeOrigin, es) - After(t, es).beatOrigin as real;
            0.0 <= drift && (if es == [] then drift == 0.0 else drift < |es| as real)
    decreases |es|
  {
    LegalTempos(t, es);
    if es != [] {
      var e := es[0];
      var u := Retempo(t, e.bpm, e.g);
      var gain := Gain(t.tempo, t.timeOrigin, e.g);
      GainNonNegative(t.tempo, t.timeOrigin, e.g);
      assert u.beatOrigin == t.beatOrigin + gain.Floor;
      assert gain.Floor as real <= gain < gain.Floor as real + 1.0;
      DriftIsBounded(u, es[1..]);
    }
  }
}
