/** A transmitter's pad wired to a receiver's line, cycle by cycle, for a transmitter
    divider and a receiver divider that need not be equal. */
module MidiStream {
  import opened Bytes
  import opened SeqTools
  import opened Midi

  // ---- runs ------------------------------------------------------------------------

  /** A byte the shift machine loaded, and whether it came from the real-time slot. */
  datatype Load = Load(byte: Bits8, rt: bool)

  datatype TxRun = TxRun(state: Tx, wire: seq<bool>, loads: seq<Load>)

  predicate Live(xs: seq<TxIn>) {
    forall i :: 0 <= i < |xs| ==> xs[i].enable && !xs[i].softReset
  }

  function LoadOf(s: Tx, x: TxIn): seq<Load> {
    if TakesRt(s, x) then [Load(s.rtByte, true)]
    else if TakesData(s, x) then [Load(s.fifo[0], false)]
    else []
  }

  function RunTx(d: nat, s: Tx, xs: seq<TxIn>): TxRun
    requires d >= 1
    decreases |xs|
  {
    if xs == [] then TxRun(s, [], [])
    else
      var rest := RunTx(d, TxNext(d, s, xs[0]), xs[1..]);
      TxRun(rest.state, [Wire(s)] + rest.wire, LoadOf(s, xs[0]) + rest.loads)
  }

  datatype CoreRun = CoreRun(core: RxCore, bytes: seq<Bits8>)

  function Struck(c: RxCore): seq<Bits8> {
    if c.strobe then [c.byte] else []
  }

  /** The enabled sampler over a line: where it ends, and the byte of every strobe. */
  function RunCore(d: nat, c: RxCore, line: seq<bool>): CoreRun
    requires d >= 1
    decreases |line|
  {
    if line == [] then CoreRun(c, [])
    else
      var next := CoreNext(d, c, line[0], false, true);
      var rest := RunCore(d, next, line[1..]);
      CoreRun(rest.core, Struck(next) + rest.bytes)
  }

  lemma {:induction false} RunTxAppend(d: nat, s: Tx, xs: seq<TxIn>, ys: seq<TxIn>)
    requires d >= 1
    ensures var a := RunTx(d, s, xs);
            var b := RunTx(d, a.state, ys);
            RunTx(d, s, xs + ys) == TxRun(b.state, a.wire + b.wire, a.loads + b.loads)
    decreases |xs|
  {
    hide TxNext, LoadOf, Wire;
    if xs == [] {
      assert xs + ys == ys;
    } else {
      var next := TxNext(d, s, xs[0]);
      RunTxAppend(d, next, xs[1..], ys);
      assert (xs + ys)[1..] == xs[1..] + ys;
      var a := RunTx(d, next, xs[1..]);
      var b := RunTx(d, a.state, ys);
      Assoc([Wire(s)], a.wire, b.wire);
      Assoc(LoadOf(s, xs[0]), a.loads, b.loads);
    }
  }

  lemma {:induction false} RunCoreAppend(d: nat, c: RxCore, v: seq<bool>, w: seq<bool>)
    requires d >= 1
    ensures var a := RunCore(d, c, v);
            var b := RunCore(d, a.core, w);
            RunCore(d, c, v + w) == CoreRun(b.core, a.bytes + b.bytes)
    decreases |v|
  {
    hide CoreNext, Struck;
    if v == [] {
      assert v + w == w;
    } else {
      var next := CoreNext(d, c, v[0], false, true);
      RunCoreAppend(d, next, v[1..], w);
      assert (v + w)[1..] == v[1..] + w;
      var a := RunCore(d, next, v[1..]);
      Assoc(Struck(next), a.bytes, RunCore(d, a.core, w).bytes);
    }
  }

  /** n times d cycles, as a sum. */
  function Span(n: nat, d: nat): nat {
    if n == 0 then 0 else d + Span(n - 1, d)
  }

  lemma {:induction false} SpanIs(n: nat, d: nat)
    ensures Span(n, d) == n * d
    decreases n
  {
    if n > 0 {
      SpanIs(n - 1, d);
      assert n * d == (n - 1) * d + d;
    }
  }

  // ---- the transmitted frame --------------------------------------------------------

  function Level(b: bool, n: nat): (s: seq<bool>)
    ensures |s| == n && forall i :: 0 <= i < n ==> s[i] == b
  {
    seq(n, _ => b)
  }

  /** The shift machine is sending a bit, with n more cycles of it to come. */
  predicate Sending(s: Tx, shift: Bits10, bits: nat, n: nat) {
    s.busy && s.shift == shift && s.bits == bits && s.div == n
  }

  lemma {:induction false} TxBit(d: nat, s: Tx, xs: seq<TxIn>)
    requires d >= 1 && Live(xs) && s.busy && s.bits >= 1 && |xs| <= s.div + 1
    ensures var r := RunTx(d, s, xs);
            && r.wire == Level(s.shift[0], |xs|) && r.loads == []
            && (if |xs| <= s.div then Sending(r.state, s.shift, s.bits, s.div - |xs|)
                else r.state.busy == (s.bits != 1) && r.state.shift == s.shift[1..] + [false]
                     && r.state.bits == s.bits - 1 && r.state.div == d - 1)
    decreases |xs|
  {
    if xs != [] {
      var next := TxNext(d, s, xs[0]);
      if s.div > 0 {
        TxBit(d, next, xs[1..]);
      } else {
        assert xs[1..] == [];
      }
    }
  }

  /** n bits of d cycles each. */
  function FrameWire(shift: Bits10, d: nat, n: nat): seq<bool>
    decreases n
  {
    if n == 0 then [] else Level(shift[0], d) + FrameWire(shift[1..] + [false], d, n - 1)
  }

  /** With n bits to go, all of the next n bit times are spent on them; a run that is
      cut short of that ends busy. */
  lemma {:induction false} TxBits(d: nat, s: Tx, xs: seq<TxIn>, n: nat)
    requires d >= 1 && Live(xs) && s.busy && 1 <= n == s.bits && s.div == d - 1
    requires |xs| <= Span(n, d)
    ensures var r := RunTx(d, s, xs);
            && r.loads == []
            && (|xs| < Span(n, d) ==> r.state.busy)
            && (|xs| == Span(n, d) ==> !r.state.busy && r.wire == FrameWire(s.shift, d, n))
    decreases n
  {
    if |xs| < d || n == 1 {
      TxBit(d, s, xs);
      if n == 1 && |xs| == d {
        assert FrameWire(s.shift, d, 1) == Level(s.shift[0], d) + FrameWire(s.shift[1..] + [false], d, 0);
        assert FrameWire(s.shift, d, 1) == Level(s.shift[0], d);
      }
    } else {
      TxBit(d, s, xs[..d]);
      var next := RunTx(d, s, xs[..d]).state;
      TxBits(d, next, xs[d..], n - 1);
      RunTxAppend(d, s, xs[..d], xs[d..]);
      assert xs == xs[..d] + xs[d..];
    }
  }

  lemma {:induction false} FrameWireLength(shift: Bits10, d: nat, n: nat)
    ensures |FrameWire(shift, d, n)| == Span(n, d)
    decreases n
  {
    if n > 0 {
      FrameWireLength(shift[1..] + [false], d, n - 1);
      }
  }

  /** During the q-th bit time the wire has the q-th bit. */
  lemma {:induction false} FrameWireAt(shift: Bits10, d: nat, n: nat, q: nat, i: nat)
    requires q < n <= 10 && Span(q, d) <= i < Span(q, d) + d
    ensures i < |FrameWire(shift, d, n)| && FrameWire(shift, d, n)[i] == shift[q]
    decreases n
  {
    FrameWireLength(shift, d, n);
    FrameWireLength(shift[1..] + [false], d, n - 1);
    hide Level;
    if q > 0 {
      FrameWireAt(shift[1..] + [false], d, n - 1, q - 1, i - d);
    }
  }

  // ---- the received frame -------------------------------------------------------------

  /** An idle sampler stays idle on a line without a falling edge. */
  predicate NoFall(prev: bool, line: seq<bool>) {
    forall i :: 0 <= i < |line| && !line[i] ==> !prev && forall j :: 0 <= j < i ==> !line[j]
  }

  lemma {:induction false} Quiet(d: nat, c: RxCore, line: seq<bool>)
    requires d >= 1 && !c.busy && NoFall(c.prev, line)
    ensures var r := RunCore(d, c, line);
            && r.bytes == [] && !r.core.busy
            && r.core.prev == if line == [] then c.prev else line[|line| - 1]
    decreases |line|
  {
    if line != [] {
      var next := CoreNext(d, c, line[0], false, true);
      assert forall i :: 0 <= i < |line| - 1 ==> line[1..][i] == line[i + 1];
      Quiet(d, next, line[1..]);
    }
  }

  /** Counting down to the next sample. */
  lemma {:induction false} Countdown(d: nat, c: RxCore, line: seq<bool>)
    requires d >= 1 && c.busy && |line| <= c.div
    ensures var r := RunCore(d, c, line);
            && r.bytes == []
            && r.core == c.(div := c.div - |line|, strobe := line == [] && c.strobe,
                            prev := if line == [] then c.prev else line[|line| - 1])
    decreases |line|
  {
    if line != [] {
      Countdown(d, CoreNext(d, c, line[0], false, true), line[1..]);
    }
  }

  /** From one sample to the next. */
  lemma SampleStep(d: nat, c: RxCore, line: seq<bool>)
    requires d >= 1 && c.busy && c.bits < 8 && |line| == c.div + 1
    ensures var r := RunCore(d, c, line);
            && r.bytes == []
            && r.core == c.(div := d - 1, shift := c.shift[1..] + [line[c.div]], bits := c.bits + 1,
                            strobe := false, prev := line[c.div])
  {
    var n := c.div;
    Countdown(d, c, line[..n]);
    RunCoreAppend(d, c, line[..n], line[n..]);
    assert line == line[..n] + line[n..];
    assert line[n..] == [line[n]] && line[n..][1..] == [];
  }

  lemma LastStep(d: nat, c: RxCore, line: seq<bool>)
    requires d >= 1 && c.busy && c.bits == 8 && |line| == c.div + 1
    ensures var r := RunCore(d, c, line);
            && r.bytes == [c.shift]
            && !r.core.busy && r.core.prev == line[c.div]
  {
    var n := c.div;
    Countdown(d, c, line[..n]);
    RunCoreAppend(d, c, line[..n], line[n..]);
    assert line == line[..n] + line[n..];
    assert line[n..] == [line[n]] && line[n..][1..] == [];
  }

  /** The byte register once m more samples have been shifted in: one after n cycles,
      then one every d. */
  function Filled(shift: Bits8, line: seq<bool>, n: nat, d: nat, m: nat): Bits8
    requires d >= 1 && (m >= 1 ==> n + Span(m - 1, d) < |line|)
    decreases m
  {
    if m == 0 then shift else Filled(shift[1..] + [line[n]], line[n + 1..], d - 1, d, m - 1)
  }

  lemma {:induction false} FilledAt(shift: Bits8, line: seq<bool>, n: nat, d: nat, m: nat, j: nat)
    requires d >= 1 && m <= 8 && j < 8 && (m >= 1 ==> n + Span(m - 1, d) < |line|)
    ensures j + m >= 8 ==> n + Span(j + m - 8, d) < |line|
    ensures Filled(shift, line, n, d, m)[j] == if j + m < 8 then shift[j + m] else line[n + Span(j + m - 8, d)]
    decreases m
  {
    if m > 0 {
      FilledAt(shift[1..] + [line[n]], line[n + 1..], d - 1, d, m - 1, j);
    }
  }

  /** With m data bits to go and a sample due after c.div cycles. */
  lemma {:induction false} RxBits(d: nat, c: RxCore, line: seq<bool>, m: nat)
    requires d >= 1 && c.busy && m <= 8 && c.bits == 8 - m
    requires |line| == c.div + Span(m, d) + 1
    ensures var r := RunCore(d, c, line);
            && r.bytes == [Filled(c.shift, line, c.div, d, m)]
            && !r.core.busy && r.core.prev == line[|line| - 1]
    decreases m
  {
    hide RunCore, CoreNext;
    if m == 0 {
      LastStep(d, c, line);
    } else {
      var n := c.div;
      var head, tail := line[..n + 1], line[n + 1..];
      SampleStep(d, c, head);
      var next := RunCore(d, c, head).core;
      RxBits(d, next, tail, m - 1);
      RunCoreAppend(d, c, head, tail);
      assert line == head + tail;
    }
  }

  /** A falling edge on an idle line starts a frame; the line then decides the byte
      and nothing else happens until it is complete. */
  lemma RxFrame(d: nat, c: RxCore, line: seq<bool>)
    requires d >= 1 && !c.busy && c.prev && |line| == 1 + SampleTime(d, DATA_BITS) && !line[0]
    ensures var r := RunCore(d, c, line);
            && r.bytes == [Filled(c.shift, line[1..], FirstWait(d), d, DATA_BITS)]
            && !r.core.busy && r.core.prev == line[|line| - 1]
  {
    RxBits(d, CoreNext(d, c, line[0], false, true), line[1..], DATA_BITS);
    hide FirstWait;
  }

  // ---- both together -----------------------------------------------------------------

  /** Where the k-th sample of the receiver falls, counted from the first cycle of the
      start bit; k = 8 is the end of the frame. */
  function SampleTime(d: nat, k: nat): nat
    requires d >= 1
  {
    1 + FirstWait(d) + Span(k, d)
  }

  /** The receiver's k-th data sample falls into the transmitter's bit k + o (0 is the
      start bit), and the receiver is done after the last data bit has begun and
      before the stop bit ends. */
  ghost predicate Sees(dt: nat, dr: nat, o: nat)
    requires dt >= 1 && dr >= 1
  {
    && (forall k :: 0 <= k < 8 ==> Span(k + o, dt) <= SampleTime(dr, k) < Span(k + o, dt) + dt)
    && (forall k :: k == 8 ==> Span(k, dt) <= SampleTime(dr, k) < Span(k, dt) + dt + dt)
  }

  /** The eight bits from the o-th on of start bit and byte: the byte itself for 1, the
      byte shifted up by one for 0. */
  function Slipped(b: Bits8, o: nat): Bits8
    requires o <= 1
  {
    ([false] + b)[o..o + 8]
  }

  /** The wire during the frame of a byte. */
  function ByteWire(b: Bits8, d: nat): (w: seq<bool>)
    ensures |w| == Span(|b| + 2, d)
  {
    FrameWireLength(Frame(b), d, |b| + 2);
    FrameWire(Frame(b), d, |b| + 2)
  }

  lemma ByteWireAt(b: Bits8, d: nat, q: nat, i: nat)
    requires q < 10 && Span(q, d) <= i < Span(q, d) + d
    ensures i < |ByteWire(b, d)| && ByteWire(b, d)[i] == Frame(b)[q]
  {
    FrameWireAt(Frame(b), d, |b| + 2, q, i);
  }

  /** The byte register after a frame. */
  lemma FrameByte(dt: nat, dr: nat, b: Bits8, shift: Bits8, line: seq<bool>, o: nat)
    requires dt >= 1 && dr >= 1 && o <= 1 && Sees(dt, dr, o)
    requires 1 + SampleTime(dr, DATA_BITS) <= |ByteWire(b, dt)| && line == ByteWire(b, dt)[1..1 + SampleTime(dr, DATA_BITS)]
    requires FirstWait(dr) + Span(DATA_BITS - 1, dr) < |line|
    ensures Filled(shift, line, FirstWait(dr), dr, DATA_BITS) == Slipped(b, o)
  {
    hide FrameWire, Span, FirstWait, ByteWire;
    var byte := Filled(shift, line, FirstWait(dr), dr, DATA_BITS);
    forall j | 0 <= j < 8
      ensures byte[j] == Slipped(b, o)[j]
    {
      FilledAt(shift, line, FirstWait(dr), dr, DATA_BITS, j);
      hide Filled;
      ByteWireAt(b, dt, j + o, SampleTime(dr, j));
    }
  }

  /** From the last data bit on, a frame does not fall again. */
  lemma TailIsQuiet(d: nat, b: Bits8, n: nat)
    requires d >= 1 && Span(DATA_BITS, d) < n <= |ByteWire(b, d)|
    ensures NoFall(ByteWire(b, d)[n - 1], ByteWire(b, d)[n..])
    ensures var w := ByteWire(b, d); w != [] && w[|w| - 1]
  {
    var w := ByteWire(b, d);
    assert Span(DATA_BITS + 1, d) == Span(DATA_BITS, d) + d && |w| == Span(DATA_BITS + 1, d) + d;
    forall i | n - 1 <= i < |w|
      ensures w[i] == if i < Span(DATA_BITS + 1, d) then Frame(b)[8] else true
    {
      ByteWireAt(b, d, if i < Span(DATA_BITS + 1, d) then DATA_BITS else DATA_BITS + 1, i);
    }
  }

  /** The receiver's part of a frame lies within the frame. */
  lemma WithinFrame(dt: nat, dr: nat, b: Bits8, o: nat)
    requires dt >= 1 && dr >= 1 && o <= 1 && Sees(dt, dr, o)
    ensures Span(DATA_BITS, dt) <= SampleTime(dr, DATA_BITS) < |ByteWire(b, dt)| && !ByteWire(b, dt)[0]
    ensures FirstWait(dr) + Span(DATA_BITS - 1, dr) < SampleTime(dr, DATA_BITS)
  {
    assert Span(DATA_BITS + 2, dt) == Span(DATA_BITS, dt) + dt + dt;
    assert Span(DATA_BITS, dr) == Span(DATA_BITS - 1, dr) + dr;
    assert Span(DATA_BITS - 8, dt) == 0;
    ByteWireAt(b, dt, DATA_BITS - 8, 0);
  }

  /** One frame on the wire: one byte received, the line idle again at its end. */
  lemma OneFrame(dt: nat, dr: nat, b: Bits8, c: RxCore, o: nat)
    requires dt >= 1 && dr >= 1 && o <= 1 && Sees(dt, dr, o) && !c.busy && c.prev
    ensures var r := RunCore(dr, c, ByteWire(b, dt));
            r.bytes == [Slipped(b, o)] && !r.core.busy && r.core.prev
  {
    hide FrameWire, FirstWait, RunCore, Filled, Slipped, ByteWire, Span, Sees, SampleTime, Frame;
    WithinFrame(dt, dr, b, o);
    var line, n := ByteWire(b, dt), 1 + SampleTime(dr, DATA_BITS);
    var head, tail := line[..n], line[n..];
    RxFrame(dr, c, head);
    assert head[1..] == line[1..n];
    FrameByte(dt, dr, b, c.shift, head[1..], o);
    TailIsQuiet(dt, b, n);
    assert line == head + tail;
    RunCoreAppend(dr, c, head, tail);
    var mid := RunCore(dr, c, head).core;
    assert mid.prev == line[n - 1];
    Quiet(dr, mid, tail);
  }
}
