/** litex_soc/beat_pulse.py make_periodic, the reloading microsecond down-counter
    behind every clock output, and the periods firmware/beat_pulse.c loads into it. */
module BeatPulse {
  import opened Bytes
  import opened Link

  // ---- the generator -----------------------------------------------------------------

  datatype Pulse = Pulse(cnt: u32, pulse: bool, width: u16)

  const RESET := Pulse(0, false, 0)

  /** One clock cycle. The counter is 32 bits wide: period 0 reloads it with all ones. */
  function PulseNext(s: Pulse, rst: bool, tick: bool, period: u32, width: u16): Pulse {
    if rst then RESET
    else if !tick then s
    else if s.cnt == 0 then Pulse(if period == 0 then 0xFFFF_FFFF else period - 1, true, width)
    else Pulse(s.cnt - 1, if s.width == 1 then false else s.pulse, if s.width != 0 then s.width - 1 else 0)
  }

  class Generator {
    var cnt: u32
    var pulse: bool
    var width: u16

    function Abs(): Pulse
      reads this
    {
      Pulse(cnt, pulse, width)
    }

    constructor ()
      ensures Abs() == RESET
    {
      cnt, pulse, width := 0, false, 0;
    }

    method Step(rst: bool, tick: bool, period: u32, pulseWidth: u16)
      modifies this
      ensures Abs() == PulseNext(old(Abs()), rst, tick, period, pulseWidth)
    {
      if rst {
        cnt, pulse, width := 0, false, 0;
      } else if tick {
        if cnt == 0 {
          cnt := if period == 0 then 0xFFFF_FFFF else period - 1;
          pulse := true;
          width := pulseWidth;
        } else {
          cnt := cnt - 1;
          if width != 0 {
            if width == 1 { pulse := false; }
            width := width - 1;
          }
        }
      }
    }
  }

  // ---- the closed form -------------------------------------------------------------------

  /** The counter's real period in ticks. */
  function Period(period: u32): (p: nat)
    ensures p >= 1
  {
    if period == 0 then 0x1_0000_0000 else period
  }

  /** From reset, after the tick with number k (counting from 0). */
  function Closed(k: nat, period: u32, width: u16): Pulse {
    var p, j := Period(period), k % Period(period);
    Pulse(p - 1 - j, width == 0 || j < width, if j < width then width - j else 0)
  }

  function Ticks(inputs: seq<bool>): nat {
    if inputs == [] then 0 else Ticks(inputs[..|inputs| - 1]) + if inputs[|inputs| - 1] then 1 else 0
  }

  /** The registers after a run of cycles with reset released; an input is the tick. */
  function RunPulse(inputs: seq<bool>, period: u32, width: u16): Pulse {
    if inputs == [] then RESET
    else PulseNext(RunPulse(inputs[..|inputs| - 1], period, width), false, inputs[|inputs| - 1], period, width)
  }

  lemma NextResidue(k: nat, p: nat)
    requires p >= 1
    ensures (k + 1) % p == if k % p == p - 1 then 0 else k % p + 1
  {
    var q, j := k / p, k % p;
    assert k == q * p + j;
    if j == p - 1 {
      assert k + 1 == (q + 1) * p;
      ResidueIs(k + 1, p, q + 1, 0);
    } else {
      ResidueIs(k + 1, p, q, j + 1);
    }
  }

  lemma ResidueIs(a: nat, p: nat, q: nat, r: nat)
    requires p >= 1 && r < p && a == q * p + r
    ensures a % p == r
  {
    SameQuotient(p, q, r, a / p, a % p);
  }

  lemma SameQuotient(p: nat, q: int, r: nat, q': int, r': nat)
    requires r < p && r' < p && q * p + r == q' * p + r'
    ensures r == r'
  {
    if q > q' {
      Apart(q, q', p);
    } else if q < q' {
      Apart(q', q, p);
    }
  }

  lemma Apart(x: int, y: int, p: nat)
    requires x > y
    ensures x * p >= y * p + p
  {
    assert x * p - y * p == (x - y) * p;
    AtLeast(x - y, p);
  }

  lemma AtLeast(x: int, p: nat)
    requires x >= 1
    ensures x * p >= p
  {
  }

  lemma ClosedStep(k: nat, period: u32, width: u16)
    ensures PulseNext(Closed(k, period, width), false, true, period, width) == Closed(k + 1, period, width)
  {
    NextResidue(k, Period(period));
  }

  lemma FirstTick(period: u32, width: u16)
    ensures PulseNext(RESET, false, true, period, width) == Closed(0, period, width)
  {
    NoResidue(Period(period));
  }

  lemma NoResidue(p: nat)
    requires p >= 1
    ensures 0 % p == 0
  {
  }

  /** For every constant period and width, whenever the ticks come: after the k-th tick
      the registers are those of the closed form. */
  lemma {:induction false} RunIsClosed(inputs: seq<bool>, period: u32, width: u16)
    ensures RunPulse(inputs, period, width)
         == if Ticks(inputs) == 0 then RESET else Closed(Ticks(inputs) - 1, period, width)
    decreases |inputs|
  {
    if inputs != [] {
      var before := inputs[..|inputs| - 1];
      RunIsClosed(before, period, width);
      hide Closed;
      if Ticks(before) > 0 {
        ClosedStep(Ticks(before) - 1, period, width);
      } else {
        FirstTick(period, width);
      }
    }
  }

  /** The output rises at tick k. */
  predicate Rises(k: nat, period: u32, width: u16) {
    Closed(k, period, width).pulse && (k == 0 || !Closed(k - 1, period, width).pulse)
  }

  /** With 0 < width < period the output rises at ticks 0, P, 2P, ... and at no other,
      and is high for exactly width ticks from each rise. */
  lemma PulseTrain(k: nat, period: u32, width: u16)
    requires 0 < width < Period(period)
    ensures Rises(k, period, width) <==> k % Period(period) == 0
    ensures Closed(k, period, width).pulse <==> k % Period(period) < width
  {
    if k > 0 {
      NextResidue(k - 1, Period(period));
    }
  }

  /** ... and any other width gives no pulses at all: once high, the output stays high. */
  lemma NoPulses(k: nat, period: u32, width: u16)
    requires !(0 < width < Period(period))
    ensures Closed(k, period, width).pulse
  {
  }

  // ---- the firmware's periods ------------------------------------------------------------

  /** The period registers. */
  datatype Periods = Periods(beat: u32, ppqn24: u32, ppqn48: u32, ppqn96: u32, bar: u32)

  function ToU32(x: int): u32 {
    x % 0x1_0000_0000
  }

  function PeriodsOf(tempo: int, beatsPerBar: int): Periods {
    var us := if tempo <= 0 then 500_000 else tempo;
    Periods(ToU32(us), ToU32(us / 24), ToU32(us / 48), ToU32(us / 96), ToU32(us * beatsPerBar))
  }

  /** Each period register is the beat cut into 24, 48 or 96 parts, to the microsecond below;
      the bar is beatsPerBar beats. Without a tempo, half a second to the beat. */
  lemma PeriodsMean(tempo: int, beatsPerBar: int)
    requires 0 < tempo < 0x1_0000_0000 && 1 <= beatsPerBar
    ensures var ps := PeriodsOf(tempo, beatsPerBar);
            && ps.beat == tempo
            && 24 * ps.ppqn24 <= tempo < 24 * ps.ppqn24 + 24
            && 48 * ps.ppqn48 <= tempo < 48 * ps.ppqn48 + 48
            && 96 * ps.ppqn96 <= tempo < 96 * ps.ppqn96 + 96
            && (tempo * beatsPerBar < 0x1_0000_0000 ==> ps.bar == tempo * beatsPerBar)
    ensures forall none: int :: none <= 0 ==> PeriodsOf(none, beatsPerBar) == PeriodsOf(500_000, beatsPerBar)
  {
    assert 0 <= tempo * beatsPerBar;
  }

  /** The static state of beat_pulse.c and the registers it writes. */
  class BeatPulseDriver {
    var flags: bv8
    var beatsPerBar: int
    var periods: Periods
    var softReset: bool

    constructor ()
      ensures flags == 0 && beatsPerBar == 4
    {
      flags, beatsPerBar, softReset := 0, 4, false;
      periods := Periods(500_000, 20_833, 10_417, 5_208, 2_000_000);
    }

    /** beat_pulse_load_timeline. */
    method LoadTimeline(tl: Timeline, ss: StartStop)
      modifies this
      ensures periods == PeriodsOf(tl.tempo, beatsPerBar) && softReset
      ensures flags == if ss.isPlaying then old(flags) | 0x01 else old(flags) & 0xFE
      ensures beatsPerBar == old(beatsPerBar)
    {
      var us: int := tl.tempo;
      if us <= 0 { us := 500_000; }
      periods := Periods(ToU32(us), ToU32(us / 24), ToU32(us / 48), ToU32(us / 96), ToU32(us * beatsPerBar));
      softReset := true;
      if ss.isPlaying { flags := flags | 0x01; } else { flags := flags & 0xFE; }
    }

    /** beat_pulse_set_beats_per_bar. */
    method SetBeatsPerBar(bpb: int)
      modifies `beatsPerBar
      ensures beatsPerBar >= 1 && (bpb >= 1 ==> beatsPerBar == bpb)
    {
      beatsPerBar := if bpb < 1 then 1 else bpb;
    }
  }

  lemma MultipleResidue(m: nat, p: nat)
    requires p >= 1
    ensures (m * p) % p == 0
  {
    ResidueIs(m * p, p, m, 0);
  }

  /** With the periods the firmware loads, the 24m-th subdivision pulse and the m-th
      beat pulse, both present, are exactly m * (tempo mod 24) microseconds apart, the
      subdivision first. */
  lemma SubdivisionLead(tempo: int, beatsPerBar: int, width: u16, m: nat)
    requires 24 <= tempo < 0x1_0000_0000 && 0 < width < tempo / 24
    ensures var ps := PeriodsOf(tempo, beatsPerBar);
            var sub, beat := 24 * m * ps.ppqn24, m * ps.beat;
            && Rises(sub, ps.ppqn24, width) && Rises(beat, ps.beat, width)
            && beat - sub == m * (tempo % 24)
  {
    var p := tempo / 24;
    PeriodsAre(tempo, beatsPerBar);
    hide Rises, PeriodsOf;
    RisesAtMultiple(24 * m, p, width);
    RisesAtMultiple(m, tempo, width);
    LeadIs(m, p, tempo % 24, tempo);
  }

  lemma PeriodsAre(tempo: int, beatsPerBar: int)
    requires 24 <= tempo < 0x1_0000_0000
    ensures PeriodsOf(tempo, beatsPerBar).ppqn24 == tempo / 24 && PeriodsOf(tempo, beatsPerBar).beat == tempo
  {
  }

  lemma RisesAtMultiple(m: nat, p: u32, width: u16)
    requires 0 < width < p
    ensures Rises(m * p, p, width)
  {
    hide Rises;
    MultipleResidue(m, p);
    PulseTrain(m * p, p, width);
  }

  lemma LeadIs(m: nat, p: nat, r: nat, tempo: nat)
    requires tempo == 24 * p + r
    ensures m * tempo - 24 * m * p == m * r
  {
    assert m * tempo == m * (24 * p) + m * r;
    assert 24 * m * p == m * (24 * p);
  }
}
