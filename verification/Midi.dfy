/** litex_soc/midi.py: the MIDI transmitter (real-time arbiter, data FIFO, shift
    machine) and receiver (bit sampler, byte classifier, data FIFO), one Step per
    clock cycle. Every Step computes the new registers from the old ones. */
module Midi {
  import opened Bytes

  const FIFO_DEPTH := 64

  /** Eight bits, least significant first. */
  type Bits8 = s: seq<bool> | |s| == 8 witness seq(8, _ => false)
  type Bits10 = s: seq<bool> | |s| == 10 witness seq(10, _ => false)

  const ZERO8: Bits8 := [false, false, false, false, false, false, false, false]
  const DATA_BITS: nat := |ZERO8|
  const RT_CLOCK: Bits8 := [false, false, false, true, true, true, true, true]
  const RT_START: Bits8 := [false, true, false, true, true, true, true, true]
  const RT_STOP: Bits8 := [false, false, true, true, true, true, true, true]

  /** _is_rt. */
  predicate IsRt(b: Bits8) {
    b[3] && b[4] && b[5] && b[6] && b[7]
  }

  function Value(s: seq<bool>): nat {
    if s == [] then 0 else (if s[0] then 1 else 0) + 2 * Value(s[1..])
  }

  /** The real-time status bytes are exactly 0xF8 to 0xFF. */
  lemma IsRtMeans(b: Bits8)
    ensures IsRt(b) <==> Value(b) >= 0xF8
  {
    var t := b[3..];
    assert b[1..][1..][1..] == t;
    assert Value(b) == (if b[0] then 1 else 0) + 2 * Value(b[1..]);
    assert Value(b[1..]) == (if b[1] then 1 else 0) + 2 * Value(b[1..][1..]);
    assert Value(b[1..][1..]) == (if b[2] then 1 else 0) + 2 * Value(t);
    FiveBits(t);
  }

  lemma FiveBits(t: seq<bool>)
    requires |t| == 5
    ensures Value(t) <= 31 && (Value(t) == 31 <==> t[0] && t[1] && t[2] && t[3] && t[4])
  {
    var u := t[2..];
    assert t[1..][1..] == u;
    assert Value(t) == (if t[0] then 1 else 0) + 2 * Value(t[1..]);
    assert Value(t[1..]) == (if t[1] then 1 else 0) + 2 * Value(u);
    assert Value(u) == (if u[0] then 1 else 0) + 2 * Value(u[1..]);
    assert Value(u[1..]) == (if u[1] then 1 else 0) + 2 * Value(u[1..][1..]);
    assert u[1..][1..] == [u[2]] && [u[2]][1..] == [];
    assert Value([u[2]]) == if u[2] then 1 else 0;
  }

  // ---- the transmitter -------------------------------------------------------------

  datatype Tx = Tx(rtPending: bool, rtByte: Bits8, busy: bool, shift: Bits10, bits: nat, div: nat, fifo: seq<Bits8>)

  /** Inputs of a cycle; the pulses are gated by their auto-transmit enables. */
  datatype TxIn = TxIn(softReset: bool, enable: bool, push: Option<Bits8>, start: bool, stop: bool, clock: bool)

  /** The frame of a byte: start bit, data, stop bit. */
  function Frame(b: Bits8): Bits10 {
    [false] + b + [true]
  }

  /** A real-time byte is taken in this cycle; the arbiter's slot is then empty, even
      if a pulse asks for another byte in the same cycle. */
  predicate TakesRt(s: Tx, x: TxIn) {
    !x.softReset && x.enable && !s.busy && s.rtPending
  }

  /** tx_data_fifo.re. */
  predicate TakesData(s: Tx, x: TxIn) {
    !s.busy && !s.rtPending && s.fifo != [] && x.enable
  }

  function Pushed(fifo: seq<Bits8>, level: nat, push: Option<Bits8>): seq<Bits8> {
    if push.Some? && level < FIFO_DEPTH then fifo + [push.value] else fifo
  }

  /** The arbiter's registers, given whether its byte is taken in this cycle. */
  function Arbitrated(pending: bool, byte: Bits8, x: TxIn, taken: bool): (bool, Bits8) {
    (if x.softReset || taken then false else pending || x.start || x.stop || x.clock,
     if x.softReset then byte
     else if x.start then RT_START else if x.stop then RT_STOP else if x.clock then RT_CLOCK else byte)
  }

  /** The shift machine's registers. */
  function Shifted(d: nat, s: Tx, x: TxIn): Tx
    requires d >= 1
  {
    if x.softReset then s.(busy := false, bits := 0, div := 0)
    else if !x.enable then s
    else if !s.busy then
      if s.rtPending then s.(shift := Frame(s.rtByte), busy := true, bits := 10, div := d - 1)
      else if s.fifo != [] then s.(shift := Frame(s.fifo[0]), busy := true, bits := 10, div := d - 1)
      else s
    else if s.div == 0 then
      s.(div := d - 1, shift := s.shift[1..] + [false],
         bits := if s.bits == 0 then 15 else s.bits - 1, busy := s.bits != 1)
    else s.(div := s.div - 1)
  }

  function TxNext(d: nat, s: Tx, x: TxIn): Tx
    requires d >= 1
  {
    var rt := Arbitrated(s.rtPending, s.rtByte, x, TakesRt(s, x));
    Shifted(d, s, x).(
      fifo := Pushed(if TakesData(s, x) then s.fifo[1..] else s.fifo, |s.fifo|, x.push),
      rtPending := rt.0, rtByte := rt.1)
  }

  /** The pad: high when idle, else the bit being sent. */
  predicate Wire(s: Tx) {
    !s.busy || s.shift[0]
  }

  // ---- the receiver ----------------------------------------------------------------

  datatype RxCore = RxCore(busy: bool, shift: Bits8, bits: nat, div: nat, byte: Bits8, strobe: bool, prev: bool)

  datatype Rx = Rx(core: RxCore, fifo: seq<Bits8>, rtValid: bool, rtByte: Bits8)

  datatype RxIn = RxIn(line: bool, softReset: bool, enable: bool, pop: bool, ack: bool)

  /** The counter rx_div is declared just wide enough for the divider d itself, so it
      counts modulo the least power of two above d. */
  function DivModulus(d: nat): (m: nat)
    ensures d < m && (d >= 1 ==> m <= 2 * d)
  {
    if d == 0 then 1 else 2 * DivModulus(d / 2)
  }

  /** What the wait of one and a half bits becomes in that counter. */
  function FirstWait(d: nat): nat
    requires d >= 1
  {
    (d + d / 2 - 1) % DivModulus(d)
  }

  function CoreNext(d: nat, s: RxCore, line: bool, softReset: bool, enable: bool): RxCore
    requires d >= 1
  {
    var next := s.(strobe := false, prev := line);
    if softReset then next.(busy := false, bits := 0, div := 0)
    else if !enable then next
    else if !s.busy then
      if !line && s.prev then next.(busy := true, bits := 0, div := FirstWait(d)) else next
    else if s.div == 0 then
      if s.bits < 8 then next.(div := d - 1, shift := s.shift[1..] + [line], bits := s.bits + 1)
      else next.(div := d - 1, byte := s.shift, strobe := true, busy := false)
    else next.(div := s.div - 1)
  }

  /** The real-time event slot, which keeps the first byte until it is read. */
  function Latched(valid: bool, held: Bits8, s: RxCore, x: RxIn): (bool, Bits8) {
    var latch := !x.softReset && s.strobe && IsRt(s.byte) && !valid;
    (if x.ack || x.softReset then false else valid || latch, if latch then s.byte else held)
  }

  function RxNext(d: nat, s: Rx, x: RxIn): Rx
    requires d >= 1
  {
    var popped := if x.pop && s.fifo != [] then s.fifo[1..] else s.fifo;
    var push := if s.core.strobe && !IsRt(s.core.byte) then Some(s.core.byte) else None;
    var slot := Latched(s.rtValid, s.rtByte, s.core, x);
    Rx(CoreNext(d, s.core, x.line, x.softReset, x.enable), Pushed(popped, |s.fifo|, push), slot.0, slot.1)
  }

  // ---- the clocked modules ------------------------------------------------------------

  class Transmitter {
    const divider: nat
    var rtPending: bool
    var rtByte: Bits8
    var busy: bool
    var shift: Bits10
    var bits: nat
    var div: nat
    var fifo: seq<Bits8>

    function Abs(): Tx
      reads this
    {
      Tx(rtPending, rtByte, busy, shift, bits, div, fifo)
    }

    constructor (divider: nat)
      requires divider >= 1
      ensures this.divider == divider
      ensures Abs() == Tx(false, ZERO8, false, seq(10, _ => false), 0, 0, [])
    {
      this.divider := divider;
      rtPending, rtByte, busy, shift := false, ZERO8, false, seq(10, _ => false);
      bits, div, fifo := 0, 0, [];
    }

    /** The shift machine's assignments; the others still hold their old values. */
    method StepShifter(x: TxIn)
      requires divider >= 1
      modifies `busy, `shift, `bits, `div
      ensures Abs() == Shifted(divider, old(Abs()), x)
    {
      if x.softReset {
        busy, bits, div := false, 0, 0;
      } else if x.enable {
        if !busy {
          if rtPending {
            shift, busy, bits, div := Frame(rtByte), true, 10, divider - 1;
          } else if fifo != [] {
            shift, busy, bits, div := Frame(fifo[0]), true, 10, divider - 1;
          }
        } else if div == 0 {
          busy := bits != 1;
          div, shift, bits := divider - 1, shift[1..] + [false], if bits == 0 then 15 else bits - 1;
        } else {
          div := div - 1;
        }
      }
    }

    /** The arbiter's assignments, given whether its byte is taken in this cycle. */
    method StepArbiter(x: TxIn, taken: bool)
      modifies `rtPending, `rtByte
      ensures (rtPending, rtByte) == Arbitrated(old(rtPending), old(rtByte), x, taken)
    {
      if x.softReset {
        rtPending := false;
      } else if x.start {
        rtByte, rtPending := RT_START, true;
      } else if x.stop {
        rtByte, rtPending := RT_STOP, true;
      } else if x.clock {
        rtByte, rtPending := RT_CLOCK, true;
      }
      if taken { rtPending := false; }
    }

    /** One cycle: the level the pad had during it, and the registers after it. */
    method Step(x: TxIn) returns (wire: bool)
      requires divider >= 1
      modifies this
      ensures wire == Wire(old(Abs()))
      ensures Abs() == TxNext(divider, old(Abs()), x)
    {
      hide Arbitrated, Frame;
      wire := !busy || shift[0];
      var read := !busy && !rtPending && fifo != [] && x.enable;
      var taken := !x.softReset && x.enable && !busy && rtPending;
      StepShifter(x);
      StepArbiter(x, taken);
      fifo := Pushed(if read then fifo[1..] else fifo, |fifo|, x.push);
    }
  }

  class Receiver {
    const divider: nat
    var busy: bool
    var shift: Bits8
    var bits: nat
    var div: nat
    var byte: Bits8
    var strobe: bool
    var prev: bool
    var fifo: seq<Bits8>
    var rtValid: bool
    var rtByte: Bits8

    function Abs(): Rx
      reads this
    {
      Rx(Core(), fifo, rtValid, rtByte)
    }

    constructor (divider: nat)
      requires divider >= 1
      ensures this.divider == divider
      ensures Abs() == Rx(RxCore(false, ZERO8, 0, 0, ZERO8, false, true), [], false, ZERO8)
    {
      this.divider := divider;
      busy, shift, bits, div, byte, strobe, prev := false, ZERO8, 0, 0, ZERO8, false, true;
      fifo, rtValid, rtByte := [], false, ZERO8;
    }

    function Core(): RxCore
      reads this
    {
      RxCore(busy, shift, bits, div, byte, strobe, prev)
    }

    /** The bit sampler's assignments. */
    method StepSampler(x: RxIn)
      requires divider >= 1
      modifies `busy, `shift, `bits, `div, `byte, `strobe, `prev
      ensures Core() == CoreNext(divider, old(Core()), x.line, x.softReset, x.enable)
    {
      var last := prev;
      strobe := false;
      prev := x.line;
      if x.softReset {
        busy, bits, div := false, 0, 0;
      } else if x.enable {
        if !busy {
          if !x.line && last {
            busy, bits, div := true, 0, FirstWait(divider);
          }
        } else if div == 0 {
          div := divider - 1;
          if bits < 8 {
            shift, bits := shift[1..] + [x.line], bits + 1;
          } else {
            byte, strobe, busy := shift, true, false;
          }
        } else {
          div := div - 1;
        }
      }
    }

    /** The classifier's assignments; the sampler's registers still hold their old
        values. */
    method StepSlot(x: RxIn)
      modifies `rtValid, `rtByte
      ensures (rtValid, rtByte) == Latched(old(rtValid), old(rtByte), old(Core()), x)
    {
      if x.softReset {
        rtValid := false;
      } else if strobe && IsRt(byte) {
        if !rtValid {
          rtByte, rtValid := byte, true;
        }
      }
      if x.ack { rtValid := false; }
    }

    method Step(x: RxIn)
      requires divider >= 1
      modifies this
      ensures Abs() == RxNext(divider, old(Abs()), x)
    {
      hide Latched, CoreNext;
      var push := if strobe && !IsRt(byte) then Some(byte) else None;
      StepSlot(x);
      StepSampler(x);
      fifo := Pushed(if x.pop && fifo != [] then fifo[1..] else fifo, |fifo|, push);
    }
  }
}
