/** Whole byte streams from a MIDI transmitter to a receiver: what arrives, for any
    activity on the transmitter's inputs, and exactly when it is what was sent. */
module MidiLoopback {
  import opened Bytes
  import opened Midi
  import opened MidiStream

  function Received(loads: seq<Load>, o: nat): seq<Bits8>
    requires o <= 1
  {
    if loads == [] then [] else [Slipped(loads[0].byte, o)] + Received(loads[1..], o)
  }

  lemma LoadStep(dt: nat, s: Tx, x: TxIn)
    requires dt >= 1 && x.enable && !x.softReset && !s.busy && LoadOf(s, x) != []
    ensures var next := TxNext(dt, s, x);
            next.busy && next.shift == Frame(LoadOf(s, x)[0].byte) && next.bits == DATA_BITS + 2 && next.div == dt - 1
  {
  }

  lemma FirstCycle(d: nat, s: Tx, xs: seq<TxIn>)
    requires d >= 1 && !s.busy && xs != []
    ensures var rest := RunTx(d, TxNext(d, s, xs[0]), xs[1..]);
            RunTx(d, s, xs) == TxRun(rest.state, [true] + rest.wire, LoadOf(s, xs[0]) + rest.loads)
  {
    hide TxNext, LoadOf;
  }

  lemma WholeFrame(dt: nat, s: Tx, xs: seq<TxIn>, b: Bits8)
    requires dt >= 1 && Live(xs) && |xs| == Span(DATA_BITS + 2, dt)
    requires s.busy && s.shift == Frame(b) && s.bits == DATA_BITS + 2 && s.div == dt - 1
    ensures var r := RunTx(dt, s, xs);
            !r.state.busy && r.wire == ByteWire(b, dt) && r.loads == []
  {
    hide Span, FrameWire, RunTx, Frame;
    TxBits(dt, s, xs, DATA_BITS + 2);
  }

  /** A run that ends idle does not stop within the frame. */
  lemma FrameFits(dt: nat, s: Tx, xs: seq<TxIn>)
    requires dt >= 1 && Live(xs) && !s.busy && xs != [] && LoadOf(s, xs[0]) != []
    requires !RunTx(dt, s, xs).state.busy
    ensures 1 + Span(DATA_BITS + 2, dt) <= |xs|
  {
    LoadStep(dt, s, xs[0]);
    FirstCycle(dt, s, xs);
    hide TxNext, Span, FrameWire, LoadOf, RunTx, Frame;
    if |xs| < 1 + Span(DATA_BITS + 2, dt) {
      TxBits(dt, TxNext(dt, s, xs[0]), xs[1..], DATA_BITS + 2);
    }
  }

  /** The idle cycle that loads a byte and the frame after it. */
  lemma LoadFrame(dt: nat, s: Tx, xs: seq<TxIn>)
    requires dt >= 1 && Live(xs) && !s.busy && xs != [] && LoadOf(s, xs[0]) != []
    requires |xs| == 1 + Span(DATA_BITS + 2, dt)
    ensures var b, r := LoadOf(s, xs[0])[0].byte, RunTx(dt, s, xs);
            r.wire == [true] + ByteWire(b, dt) && r.loads == LoadOf(s, xs[0]) && !r.state.busy
  {
    LoadStep(dt, s, xs[0]);
    FirstCycle(dt, s, xs);
    hide TxNext, Span, FrameWire, LoadOf, RunTx, Frame, ByteWire;
    WholeFrame(dt, TxNext(dt, s, xs[0]), xs[1..], LoadOf(s, xs[0])[0].byte);
    assert LoadOf(s, xs[0]) + [] == LoadOf(s, xs[0]);
  }

  lemma ReceivedCons(x: Load, rest: seq<Load>, o: nat)
    requires o <= 1
    ensures Received([x] + rest, o) == [Slipped(x.byte, o)] + Received(rest, o)
  {
    assert ([x] + rest)[1..] == rest;
  }

  /** A high cycle on an idle line. */
  lemma HighCycle(d: nat, c: RxCore)
    requires d >= 1 && !c.busy && c.prev
    ensures var r := RunCore(d, c, [true]); r.bytes == [] && !r.core.busy && r.core.prev
  {
    Quiet(d, c, [true]);
  }

  /** A high cycle and then a frame. */
  lemma HeadFrame(dt: nat, dr: nat, b: Bits8, c: RxCore, o: nat)
    requires dt >= 1 && dr >= 1 && o <= 1 && Sees(dt, dr, o) && !c.busy && c.prev
    ensures var r := RunCore(dr, c, [true] + ByteWire(b, dt));
            r.bytes == [Slipped(b, o)] && !r.core.busy && r.core.prev
  {
    hide RunCore, ByteWire, Slipped, Sees;
    HighCycle(dr, c);
    OneFrame(dt, dr, b, RunCore(dr, c, [true]).core, o);
    RunCoreAppend(dr, c, [true], ByteWire(b, dt));
  }

  /** What the receiver makes of a transmitter's run. */
  ghost predicate Arrives(dr: nat, c: RxCore, t: TxRun, o: nat)
    requires dr >= 1 && o <= 1
  {
    var r := RunCore(dr, c, t.wire);
    r.bytes == Received(t.loads, o) && !r.core.busy && r.core.prev
  }

  lemma JoinRuns(dr: nat, c: RxCore, wire: seq<bool>, loads: seq<Load>, rest: TxRun, o: nat)
    requires dr >= 1 && o <= 1
    requires |loads| <= 1
    requires RunCore(dr, c, wire).bytes == if loads == [] then [] else [Slipped(loads[0].byte, o)]
    requires Arrives(dr, RunCore(dr, c, wire).core, rest, o)
    ensures Arrives(dr, c, TxRun(rest.state, wire + rest.wire, loads + rest.loads), o)
  {
    hide RunCore, Slipped;
    RunCoreAppend(dr, c, wire, rest.wire);
    if loads == [] {
      assert loads + rest.loads == rest.loads;
    } else {
      ReceivedCons(loads[0], rest.loads, o);
      assert loads == [loads[0]];
    }
  }

  /** Between idle moments of the transmitter the receiver strobes once per byte
      loaded, in order, whatever the inputs did; each byte is the one sent, or that
      byte slipped by a bit, according to where the samples fall. */
  lemma {:induction false} Stream(dt: nat, dr: nat, s: Tx, xs: seq<TxIn>, c: RxCore, o: nat)
    requires dt >= 1 && dr >= 1 && o <= 1 && Sees(dt, dr, o)
    requires Live(xs) && !s.busy && !RunTx(dt, s, xs).state.busy
    requires !c.busy && c.prev
    ensures Arrives(dr, c, RunTx(dt, s, xs), o)
    decreases |xs|
  {
    hide Sees, CoreNext, ByteWire, Slipped, Span, Arrives;
    if xs == [] {
      NothingArrives(dr, c, RunTx(dt, s, xs), o);
    } else if LoadOf(s, xs[0]) == [] {
      var next := TxNext(dt, s, xs[0]);
      HighCycle(dr, c);
      Stream(dt, dr, next, xs[1..], RunCore(dr, c, [true]).core, o);
      JoinRuns(dr, c, [true], [], RunTx(dt, next, xs[1..]), o);
    } else {
      FrameFits(dt, s, xs);
      var x, n := LoadOf(s, xs[0])[0], 1 + Span(DATA_BITS + 2, dt);
      LoadFrame(dt, s, xs[..n]);
      RunTxAppend(dt, s, xs[..n], xs[n..]);
      assert xs == xs[..n] + xs[n..];
      assert LoadOf(s, xs[0]) == [x];
      hide TxNext, LoadOf, RunCore, RunTx;
      var r := RunTx(dt, s, xs[..n]);
      HeadFrame(dt, dr, x.byte, c, o);
      Stream(dt, dr, r.state, xs[n..], RunCore(dr, c, r.wire).core, o);
      JoinRuns(dr, c, r.wire, [x], RunTx(dt, r.state, xs[n..]), o);
    }
  }

  lemma NothingArrives(dr: nat, c: RxCore, t: TxRun, o: nat)
    requires dr >= 1 && o <= 1 && t.wire == [] && t.loads == [] && !c.busy && c.prev
    ensures Arrives(dr, c, t, o)
  {
  }

  // ---- where the samples fall ------------------------------------------------------

  /** The wait of one and a half bits fits the counter. */
  predicate WaitFits(d: nat) {
    d + d / 2 <= DivModulus(d)
  }

  /** With a wait that fits, it is enough that the first and the last data sample fall
      into their bits and the frame ends before the stop bit does. */
  lemma SeesWhenClose(dt: nat, dr: nat)
    requires dt >= 1 && dr >= 1 && WaitFits(dr)
    requires dt <= dr + dr / 2 < 2 * dt
    requires 8 * dt <= dr / 2 + 8 * dr < 9 * dt && dr / 2 + 9 * dr < 10 * dt
    ensures Sees(dt, dr, 1)
  {
    FirstWaitIs(dr);
    hide FirstWait, WaitFits;
    forall k | 0 <= k < 8
      ensures Span(k + 1, dt) <= SampleTime(dr, k) < Span(k + 1, dt) + dt
    {
      SpanIs(k + 1, dt);
      SpanIs(k, dr);
      hide Span;
      Between(dt, dr, k);
    }
    forall k | k == 8
      ensures Span(k, dt) <= SampleTime(dr, k) < Span(k, dt) + dt + dt
    {
      SpanIs(k, dt);
      SpanIs(k, dr);
      hide Span;
    }
  }

  lemma Between(dt: nat, dr: nat, k: nat)
    requires k < 8
    requires dt <= dr + dr / 2 < 2 * dt
    requires 8 * dt <= dr / 2 + 8 * dr < 9 * dt
    ensures (k + 1) * dt <= dr + dr / 2 + k * dr < (k + 1) * dt + dt
  {
    var a, b := dr + dr / 2 - dt, dr - dt;
    assert a + 7 * b >= 0 && a >= 0 && a < dt && a + 7 * b < dt;
    if k == 0 {
    } else if k == 1 {
    } else if k == 2 {
    } else if k == 3 {
    } else if k == 4 {
    } else if k == 5 {
    } else if k == 6 {
    } else {
    }
  }

  /** Equal dividers: the samples fall into their bits if the wait fits the counter,
      and each into the bit before if it does not. */
  lemma SeesSameDivider(d: nat)
    requires d >= 1
    ensures Sees(d, d, if WaitFits(d) then 1 else 0)
  {
    var o := if WaitFits(d) then 1 else 0;
    FirstWaitIs(d);
    forall k | 0 <= k <= 8
      ensures Span(k + 1, d) == Span(k, d) + d
    {
    }
    hide Span, FirstWait;
  }

  lemma FirstWaitIs(d: nat)
    requires d >= 1
    ensures 1 + FirstWait(d) == if WaitFits(d) then d + d / 2 else d + d / 2 - DivModulus(d)
    ensures !WaitFits(d) ==> d / 2 > FirstWait(d) + 1
  {
    hide DivModulus;
    var a, m := d + d / 2 - 1, DivModulus(d);
    if WaitFits(d) { ModNone(a, m); } else { ModOnce(a, m); }
  }

  lemma ModNone(a: nat, m: nat)
    requires a < m
    ensures a % m == a
  {
  }

  lemma ModOnce(a: nat, m: nat)
    requires m <= a < 2 * m
    ensures a % m == a - m
  {
  }

  // ---- the stream theorems -----------------------------------------------------------

  function Sent(loads: seq<Load>): (s: seq<Bits8>)
    ensures |s| == |loads|
  {
    if loads == [] then [] else [loads[0].byte] + Sent(loads[1..])
  }

  lemma {:induction false} ReceivedWhole(loads: seq<Load>)
    ensures Received(loads, 1) == Sent(loads)
    decreases |loads|
  {
    if loads != [] {
      ReceivedWhole(loads[1..]);
      assert Slipped(loads[0].byte, 1) == loads[0].byte;
    }
  }

  /** Close dividers: every byte the transmitter loads arrives, in order, one strobe
      each. */
  lemma StreamRoundTrip(dt: nat, dr: nat, s: Tx, xs: seq<TxIn>, c: RxCore)
    requires dt >= 1 && dr >= 1 && WaitFits(dr)
    requires dt <= dr + dr / 2 < 2 * dt && 8 * dt <= dr / 2 + 8 * dr < 9 * dt && dr / 2 + 9 * dr < 10 * dt
    requires Live(xs) && !s.busy && !RunTx(dt, s, xs).state.busy && !c.busy && c.prev
    ensures RunCore(dr, c, RunTx(dt, s, xs).wire).bytes == Sent(RunTx(dt, s, xs).loads)
  {
    hide Sees, RunCore, RunTx;
    SeesWhenClose(dt, dr);
    Stream(dt, dr, s, xs, c, 1);
    ReceivedWhole(RunTx(dt, s, xs).loads);
  }

  /** Equal dividers, as in two copies of one bitstream: every byte arrives as sent if
      the receiver's wait fits its counter, and otherwise every byte arrives shifted
      up by one bit, its top bit lost. */
  lemma SameDividerStream(d: nat, s: Tx, xs: seq<TxIn>, c: RxCore)
    requires d >= 1 && Live(xs) && !s.busy && !RunTx(d, s, xs).state.busy && !c.busy && c.prev
    ensures var t := RunTx(d, s, xs);
            RunCore(d, c, t.wire).bytes == if WaitFits(d) then Sent(t.loads) else Received(t.loads, 0)
  {
    hide Sees, RunCore, RunTx;
    SeesSameDivider(d);
    Stream(d, d, s, xs, c, if WaitFits(d) then 1 else 0);
    ReceivedWhole(RunTx(d, s, xs).loads);
  }

  /** Shifted up by one: twice the value, modulo 256. */
  lemma SlippedDoubles(b: Bits8)
    ensures Value(Slipped(b, 0)) == 2 * Value(b) % 256
  {
    assert Slipped(b, 0) == [false] + b[..7];
    assert ([false] + b[..7])[1..] == b[..7];
    assert Value(Slipped(b, 0)) == 2 * Value(b[..7]);
    assert b == b[..7] + [b[7]];
    ValueSnoc(b[..7], b[7], 128);
    ValueBound(b[..7], 128);
  }

  function Pow2(n: nat): nat {
    if n == 0 then 1 else 2 * Pow2(n - 1)
  }

  lemma {:induction false} ValueSnoc(s: seq<bool>, x: bool, w: nat)
    requires w == Pow2(|s|)
    ensures Value(s + [x]) == Value(s) + if x then w else 0
    decreases |s|
  {
    if s == [] {
      assert s + [x] == [x] && [x][1..] == [];
    } else {
      assert (s + [x])[1..] == s[1..] + [x];
      ValueSnoc(s[1..], x, w / 2);
    }
  }

  lemma {:induction false} ValueBound(s: seq<bool>, w: nat)
    requires w == Pow2(|s|)
    ensures Value(s) < w
    decreases |s|
  {
    if s != [] {
      ValueBound(s[1..], w / 2);
    }
  }

  /** The transmitter and receiver of one bitstream reproduce every stream. */
  ghost predicate Reproduces(d: nat)
    requires d >= 1
  {
    forall s: Tx, xs: seq<TxIn>, c: RxCore ::
      Live(xs) && !s.busy && !RunTx(d, s, xs).state.busy && !c.busy && c.prev
      ==> RunCore(d, c, RunTx(d, s, xs).wire).bytes == Sent(RunTx(d, s, xs).loads)
  }

  /** ... exactly when one and a half bit times, less a cycle, are below the least
      power of two above the divider. */
  lemma ReproducesIff(d: nat)
    requires d >= 1
    ensures Reproduces(d) <==> d + d / 2 <= DivModulus(d)
  {
    hide RunTx, RunCore;
    if WaitFits(d) {
      forall s: Tx, xs: seq<TxIn>, c: RxCore
        | Live(xs) && !s.busy && !RunTx(d, s, xs).state.busy && !c.busy && c.prev
        ensures RunCore(d, c, RunTx(d, s, xs).wire).bytes == Sent(RunTx(d, s, xs).loads)
      {
        SameDividerStream(d, s, xs, c);
      }
    } else {
      var s, xs := OneByteRun(d);
      var c := RxCore(false, ZERO8, 0, 0, ZERO8, false, true);
      SameDividerStream(d, s, xs, c);
      assert RunTx(d, s, xs).loads == [Load(RT_START, false)];
      assert Slipped(RT_START, 0)[1] != RT_START[1];
    }
  }

  /** A run that sends one byte and nothing else. */
  lemma OneByteRun(d: nat) returns (s: Tx, xs: seq<TxIn>)
    requires d >= 1
    ensures Live(xs) && !s.busy && !RunTx(d, s, xs).state.busy
    ensures RunTx(d, s, xs).loads == [Load(RT_START, false)]
  {
    s := Tx(false, ZERO8, false, seq(10, _ => false), 0, 0, [RT_START]);
    var x := TxIn(false, true, None, false, false, false);
    xs := seq(1 + Span(DATA_BITS + 2, d), _ => x);
    LoadStep(d, s, x);
    assert LoadOf(s, x) == [Load(RT_START, false)];
    hide TxNext, LoadOf;
    TxBits(d, TxNext(d, s, x), xs[1..], DATA_BITS + 2);
  }

  /** At the build's default clock of 50 MHz the divider is 1600 and the wait does not
      fit; at the SoC's own default of 75 MHz it is 2400 and fits. */
  lemma DefaultClocks()
    ensures !Reproduces(1600) && Reproduces(2400)
  {
    hide Reproduces, DivModulus;
    DefaultModuli();
    ReproducesIff(1600);
    ReproducesIff(2400);
  }

  lemma DefaultModuli()
    ensures DivModulus(1600) == 2048 && DivModulus(2400) == 4096
  {
  }
}
