/** The real-time bytes of the MIDI modules: which byte a start, stop or clock pulse puts
    on the wire, and which one the receiver holds for the CPU. */
module MidiRealTime {
  import opened Bytes
  import opened Midi
  import opened MidiStream
  import opened MidiLoopback
  import opened MidiData

  // ---- the transmitter -----------------------------------------------------------------

  /** The status byte a cycle's pulses ask for: Start over Stop over Timing Clock. */
  function PulseValue(x: TxIn): Option<nat> {
    if x.start then Some(0xFA) else if x.stop then Some(0xFC) else if x.clock then Some(0xF8) else None
  }

  /** The latest pulse since the slot was last taken. A pulse in the cycle of the taking
      is lost. */
  function Wanted(w: Option<nat>, taken: bool, x: TxIn): Option<nat> {
    if taken then None else if PulseValue(x).Some? then PulseValue(x) else w
  }

  /** For every byte loaded in a run, the pulse it stands for; None for data. */
  function Asked(d: nat, s: Tx, w: Option<nat>, xs: seq<TxIn>): seq<Option<nat>>
    requires d >= 1
    decreases |xs|
  {
    if xs == [] then []
    else
      var l := LoadOf(s, xs[0]);
      (if l == [] then [] else [if l[0].rt then w else None])
      + Asked(d, TxNext(d, s, xs[0]), Wanted(w, TakesRt(s, xs[0]), xs[0]), xs[1..])
  }

  /** The slot holds the byte of the pulse that is wanted. */
  predicate SlotHolds(s: Tx, w: Option<nat>) {
    (s.rtPending <==> w.Some?) && (w.Some? ==> Value(s.rtByte) == w.value)
  }

  lemma StatusValues()
    ensures Value(RT_START) == 0xFA && Value(RT_STOP) == 0xFC && Value(RT_CLOCK) == 0xF8
  {
    ValueOf(RT_START);
    ValueOf(RT_STOP);
    ValueOf(RT_CLOCK);
  }

  lemma ValueOf(b: Bits8)
    ensures Value(b) == Bit(b[0]) + 2 * Bit(b[1]) + 4 * Bit(b[2]) + 8 * Bit(b[3])
                        + 16 * Bit(b[4]) + 32 * Bit(b[5]) + 64 * Bit(b[6]) + 128 * Bit(b[7])
  {
    ValueOfFour(b);
    ValueOfFour(b[4..]);
    assert b[4..][4..] == [];
  }

  lemma ValueOfFour(s: seq<bool>)
    requires |s| >= 4
    ensures Value(s) == Bit(s[0]) + 2 * Bit(s[1]) + 4 * Bit(s[2]) + 8 * Bit(s[3]) + 16 * Value(s[4..])
  {
    var t, u, v := s[1..], s[2..], s[3..];
    assert t[1..] == u && u[1..] == v && v[1..] == s[4..];
    assert Value(s) == Bit(s[0]) + 2 * Value(t);
    assert Value(t) == Bit(s[1]) + 2 * Value(u);
    assert Value(u) == Bit(s[2]) + 2 * Value(v);
    assert Value(v) == Bit(s[3]) + 2 * Value(s[4..]);
  }

  function Bit(b: bool): nat {
    if b then 1 else 0
  }

  lemma SlotStep(d: nat, s: Tx, w: Option<nat>, x: TxIn)
    requires d >= 1 && SlotHolds(s, w) && x.enable && !x.softReset
    ensures SlotHolds(TxNext(d, s, x), Wanted(w, TakesRt(s, x), x))
  {
    StatusValues();
    hide Value, Shifted, Pushed;
  }

  lemma LoadIsAsked(s: Tx, w: Option<nat>, x: TxIn)
    requires SlotHolds(s, w)
    ensures var l := LoadOf(s, x); |l| <= 1 && (l != [] && l[0].rt ==> w == Some(Value(l[0].byte)))
  {
    hide Value;
  }

  /** The loads are what was asked for, one by one. */
  ghost predicate Meets(loads: seq<Load>, asked: seq<Option<nat>>) {
    && |asked| == |loads|
    && forall i :: 0 <= i < |loads| ==>
         if loads[i].rt then asked[i] == Some(Value(loads[i].byte)) else asked[i] == None
  }

  lemma MeetsCons(l: Load, w: Option<nat>, loads: seq<Load>, asked: seq<Option<nat>>)
    requires Meets(loads, asked) && (l.rt ==> w == Some(Value(l.byte)))
    ensures Meets([l] + loads, [if l.rt then w else None] + asked)
  {
    hide Value;
  }

  /** Every real-time byte that goes out is that of the latest pulse since the slot was last
      taken: 0xFA for start, 0xFC for stop, 0xF8 for clock. */
  lemma {:induction false} RtLoadsAreAsked(d: nat, s: Tx, w: Option<nat>, xs: seq<TxIn>)
    requires d >= 1 && Live(xs) && SlotHolds(s, w)
    ensures Meets(RunTx(d, s, xs).loads, Asked(d, s, w, xs))
    decreases |xs|
  {
    if xs != [] {
      assert xs[0].enable && !xs[0].softReset;
      SlotStep(d, s, w, xs[0]);
      LoadIsAsked(s, w, xs[0]);
      hide TxNext, Value, Wanted, TakesRt, SlotHolds, LoadOf;
      var next, w' := TxNext(d, s, xs[0]), Wanted(w, TakesRt(s, xs[0]), xs[0]);
      RtLoadsAreAsked(d, next, w', xs[1..]);
      var l, rest := LoadOf(s, xs[0]), RunTx(d, next, xs[1..]).loads;
      assert RunTx(d, s, xs).loads == l + rest;
      hide RunTx;
      if l == [] {
        assert l + rest == rest;
      } else {
        MeetsCons(l[0], w, rest, Asked(d, next, w', xs[1..]));
        assert l == [l[0]];
      }
    }
  }

  /** Real-time bytes go first: while one waits, no data byte is loaded. */
  lemma RealTimeGoesFirst(d: nat, s: Tx, x: TxIn)
    requires d >= 1 && x.enable && !x.softReset && !s.busy && s.rtPending
    ensures LoadOf(s, x) == [Load(s.rtByte, true)]
    ensures TxNext(d, s, x).shift == Frame(s.rtByte) && s.fifo <= TxNext(d, s, x).fifo
  {
  }

  /** ... all the way: the i-th byte the receiver strikes, if it is a real-time byte sent, is
      the status byte of the pulse it was asked for. */
  lemma RtRoundTrip(dt: nat, dr: nat, s: Tx, w: Option<nat>, xs: seq<TxIn>, c: RxCore)
    requires dt >= 1 && dr >= 1 && WaitFits(dr)
    requires dt <= dr + dr / 2 < 2 * dt && 8 * dt <= dr / 2 + 8 * dr < 9 * dt && dr / 2 + 9 * dr < 10 * dt
    requires Live(xs) && !s.busy && !RunTx(dt, s, xs).state.busy && !c.busy && c.prev && SlotHolds(s, w)
    ensures var t, bytes := RunTx(dt, s, xs), RunCore(dr, c, RunTx(dt, s, xs).wire).bytes;
            var asked := Asked(dt, s, w, xs);
            && |bytes| == |asked| == |t.loads|
            && forall i :: 0 <= i < |asked| && t.loads[i].rt ==> asked[i] == Some(Value(bytes[i]))
  {
    hide RunTx, RunCore, Value, Asked, Live;
    StreamRoundTrip(dt, dr, s, xs, c);
    RtLoadsAreAsked(dt, s, w, xs);
    SentAt(RunTx(dt, s, xs).loads);
  }

  lemma {:induction false} SentAt(loads: seq<Load>)
    ensures forall i :: 0 <= i < |loads| ==> Sent(loads)[i] == loads[i].byte
    decreases |loads|
  {
    if loads != [] {
      SentAt(loads[1..]);
      assert forall i :: 1 <= i < |loads| ==> loads[i] == loads[1..][i - 1] && Sent(loads)[i] == Sent(loads[1..])[i - 1];
    }
  }

  /** Soft reset empties the slot and lets go of the wire; a disabled transmitter holds its
      frame. */
  lemma ResetAndDisable(d: nat, s: Tx, x: TxIn)
    requires d >= 1
    ensures var t := TxNext(d, s, x);
            && (x.softReset ==> !t.busy && !t.rtPending && Wire(t) && t.bits == 0 && t.div == 0)
            && (!x.softReset && !x.enable ==> t.busy == s.busy && t.shift == s.shift && t.bits == s.bits && t.div == s.div
                                              && s.fifo <= t.fifo && Wire(t) == Wire(s))
  {
  }

  // ---- the receiver --------------------------------------------------------------------

  /** The first real-time byte of a list. */
  function FirstRt(bs: seq<Bits8>): Option<Bits8> {
    if bs == [] then None else if Value(bs[0]) >= 0xF8 then Some(bs[0]) else FirstRt(bs[1..])
  }

  predicate NoAck(xs: seq<RxIn>) {
    forall i :: 0 <= i < |xs| ==> !xs[i].ack
  }

  lemma {:induction false} FirstRtAppend(a: seq<Bits8>, b: seq<Bits8>)
    ensures FirstRt(a + b) == if FirstRt(a).Some? then FirstRt(a) else FirstRt(b)
    decreases |a|
  {
    hide Value;
    if a == [] {
      assert a + b == b;
    } else {
      FirstRtAppend(a[1..], b);
      assert (a + b)[1..] == a[1..] + b;
    }
  }

  /** What the event slot holds for the CPU. */
  function Held(s: Rx): Option<Bits8> {
    if s.rtValid then Some(s.rtByte) else None
  }

  /** Until the CPU acknowledges, the event slot keeps the byte it has, or else takes the first
      real-time byte struck. The byte struck in the last cycle counts from the next. */
  lemma {:induction false} SlotKeepsFirst(d: nat, s: Rx, xs: seq<RxIn>)
    requires d >= 1 && LiveRx(xs) && NoAck(xs)
    ensures var r := RunRx(d, s, xs);
            var struck := Struck(s.core) + r.bytes;
            && |Struck(r.state.core)| <= |struck|
            && struck == struck[..|struck| - |Struck(r.state.core)|] + Struck(r.state.core)
            && Held(r.state) == if Held(s).Some? then Held(s)
                                else FirstRt(struck[..|struck| - |Struck(r.state.core)|])
    decreases |xs|
  {
    hide Value;
    if xs == [] {
      assert Struck(s.core) + [] == Struck(s.core);
    } else {
      assert xs[0].enable && !xs[0].softReset && !xs[0].ack;
      var next := RxNext(d, s, xs[0]);
      SlotTakes(d, s, xs[0]);
      SlotKeepsFirst(d, next, xs[1..]);
      var r := RunRx(d, next, xs[1..]);
      hide RxNext, RunRx, Struck, FirstRt;
      var tail := Struck(next.core) + r.bytes;
      var n := |Struck(r.state.core)|;
      var struck := Struck(s.core) + tail;
      assert struck[..|struck| - n] == Struck(s.core) + tail[..|tail| - n];
      FirstRtAppend(Struck(s.core), tail[..|tail| - n]);
    }
  }

  lemma SlotTakes(d: nat, s: Rx, x: RxIn)
    requires d >= 1 && !x.softReset && !x.ack
    ensures Held(RxNext(d, s, x)) == if Held(s).Some? then Held(s) else FirstRt(Struck(s.core))
  {
    IsRtMeans(s.core.byte);
    hide Value, IsRt, CoreNext, Pushed;
    assert [s.core.byte][1..] == [];
  }

  /** Soft reset drops the byte being received; a disabled receiver holds it. Neither strikes one. */
  lemma ReceiverResetAndDisable(d: nat, s: RxCore, line: bool, softReset: bool, enable: bool)
    requires d >= 1 && (softReset || !enable)
    ensures var t := CoreNext(d, s, line, softReset, enable);
            && !t.strobe && t.byte == s.byte && t.shift == s.shift && t.prev == line
            && if softReset then !t.busy && t.bits == 0 && t.div == 0
               else t.busy == s.busy && t.bits == s.bits && t.div == s.div
  {
  }

  /** An acknowledgement or a reset empties the slot. */
  lemma AckEmptiesSlot(d: nat, s: Rx, x: RxIn)
    requires d >= 1 && (x.ack || x.softReset)
    ensures Held(RxNext(d, s, x)) == None
  {
  }
}
