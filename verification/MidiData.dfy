/** Real-time bytes interleave with FIFO data on the wire; the data stream comes out
    of the receiver's FIFO complete and in order all the same. */
module MidiData {
  import opened Bytes
  import opened SeqTools
  import opened Midi
  import opened MidiStream
  import opened MidiLoopback

  /** The bytes of a list that are not real-time bytes. */
  function NonRt(bs: seq<Bits8>): seq<Bits8> {
    if bs == [] then [] else (if IsRt(bs[0]) then [] else [bs[0]]) + NonRt(bs[1..])
  }

  lemma {:induction false} NonRtAppend(a: seq<Bits8>, b: seq<Bits8>)
    ensures NonRt(a + b) == NonRt(a) + NonRt(b)
    decreases |a|
  {
    hide IsRt;
    if a == [] {
      assert a + b == b;
    } else {
      NonRtAppend(a[1..], b);
      assert (a + b)[1..] == a[1..] + b;
      Assoc(if IsRt(a[0]) then [] else [a[0]], NonRt(a[1..]), NonRt(b));
    }
  }

  // ---- the transmit side ---------------------------------------------------------------

  /** The loaded bytes that came from the data FIFO. */
  function Data(loads: seq<Load>): seq<Bits8> {
    if loads == [] then [] else (if loads[0].rt then [] else [loads[0].byte]) + Data(loads[1..])
  }

  function Pushes(xs: seq<TxIn>): seq<Bits8> {
    if xs == [] then [] else (if xs[0].push.Some? then [xs[0].push.value] else []) + Pushes(xs[1..])
  }

  /** No byte is pushed into a full transmit FIFO. */
  predicate TxRoom(d: nat, s: Tx, xs: seq<TxIn>)
    requires d >= 1
    decreases |xs|
  {
    xs == [] ||
    ((xs[0].push.Some? ==> |s.fifo| < FIFO_DEPTH) && TxRoom(d, TxNext(d, s, xs[0]), xs[1..]))
  }

  lemma TxStepConserves(d: nat, s: Tx, x: TxIn)
    requires d >= 1 && x.enable && !x.softReset && (x.push.Some? ==> |s.fifo| < FIFO_DEPTH)
    ensures Data(LoadOf(s, x)) + TxNext(d, s, x).fifo == s.fifo + if x.push.Some? then [x.push.value] else []
  {
    if TakesData(s, x) {
      assert LoadOf(s, x)[1..] == [];
      assert Data(LoadOf(s, x)) == [s.fifo[0]];
      assert s.fifo == [s.fifo[0]] + s.fifo[1..];
    } else if TakesRt(s, x) {
      assert LoadOf(s, x)[1..] == [];
    }
  }

  /** The FIFOs take a byte while they hold fewer than 64, and drop it otherwise. */
  lemma FullFifoDrops(fifo: seq<Bits8>, b: Bits8)
    ensures Pushed(fifo, |fifo|, Some(b)) == if |fifo| < 64 then fifo + [b] else fifo
  {
  }

  lemma {:induction false} DataAppend(a: seq<Load>, b: seq<Load>)
    ensures Data(a + b) == Data(a) + Data(b)
    decreases |a|
  {
    if a == [] {
      assert a + b == b;
    } else {
      DataAppend(a[1..], b);
      assert (a + b)[1..] == a[1..] + b;
      Assoc(if a[0].rt then [] else [a[0].byte], Data(a[1..]), Data(b));
    }
  }

  /** Data loaded and data still queued are the data queued before and pushed since,
      in order. */
  lemma {:induction false} TxConserves(d: nat, s: Tx, xs: seq<TxIn>)
    requires d >= 1 && Live(xs) && TxRoom(d, s, xs)
    ensures Data(RunTx(d, s, xs).loads) + RunTx(d, s, xs).state.fifo == s.fifo + Pushes(xs)
    decreases |xs|
  {
    if xs != [] {
      TxStepConserves(d, s, xs[0]);
      hide TxNext, LoadOf;
      var next := TxNext(d, s, xs[0]);
      TxConserves(d, next, xs[1..]);
      var rest := RunTx(d, next, xs[1..]);
      DataAppend(LoadOf(s, xs[0]), rest.loads);
      Regroup(Data(LoadOf(s, xs[0])), Data(rest.loads), rest.state.fifo, next.fifo, Pushes(xs[1..]),
              s.fifo, if xs[0].push.Some? then [xs[0].push.value] else []);
    }
  }

  lemma Regroup(l: seq<Bits8>, r: seq<Bits8>, f: seq<Bits8>, q: seq<Bits8>, p: seq<Bits8>, g: seq<Bits8>, x: seq<Bits8>)
    requires r + f == q + p && l + q == g + x
    ensures l + r + f == g + (x + p)
  {
    assert l + r + f == l + (r + f);
    assert l + (q + p) == (l + q) + p;
    assert g + (x + p) == (g + x) + p;
  }

  /** Whatever waits in the real-time slot is a real-time byte. */
  predicate SlotOk(s: Tx) {
    s.rtPending ==> IsRt(s.rtByte)
  }

  /** Dropping real-time bytes from all that is loaded, or from its data alone, leaves
      the same. */
  lemma {:induction false} RtLoadsAreRt(d: nat, s: Tx, xs: seq<TxIn>)
    requires d >= 1 && Live(xs) && SlotOk(s)
    ensures NonRt(Sent(RunTx(d, s, xs).loads)) == NonRt(Data(RunTx(d, s, xs).loads))
    decreases |xs|
  {
    if xs != [] {
      var next := TxNext(d, s, xs[0]);
      assert SlotOk(next);
      RtLoadsAreRt(d, next, xs[1..]);
      var rest := RunTx(d, next, xs[1..]);
      var l := LoadOf(s, xs[0]);
      assert l != [] && l[0].rt ==> IsRt(l[0].byte);
      assert |l| <= 1 && RunTx(d, s, xs).loads == l + rest.loads;
      hide TxNext, LoadOf, IsRt, RunTx;
      if l == [] {
        assert l + rest.loads == rest.loads;
      } else {
        assert l == [l[0]];
        OneMoreLoad(l[0], rest.loads);
      }
    }
  }

  lemma OneMoreLoad(x: Load, rest: seq<Load>)
    requires x.rt ==> IsRt(x.byte)
    requires NonRt(Sent(rest)) == NonRt(Data(rest))
    ensures NonRt(Sent([x] + rest)) == NonRt(Data([x] + rest))
  {
    assert ([x] + rest)[1..] == rest;
    assert Sent([x] + rest) == [x.byte] + Sent(rest);
    NonRtAppend([x.byte], Sent(rest));
    NonRtOne(x.byte);
    hide IsRt, Sent;
    if x.rt {
      assert Data([x] + rest) == Data(rest);
      assert [] + NonRt(Sent(rest)) == NonRt(Sent(rest));
    } else {
      assert Data([x] + rest) == [x.byte] + Data(rest);
      NonRtAppend([x.byte], Data(rest));
    }
  }

  lemma NonRtOne(b: Bits8)
    ensures NonRt([b]) == if IsRt(b) then [] else [b]
  {
    hide IsRt;
    assert [b][1..] == [];
  }

  // ---- the receive side -----------------------------------------------------------------

  datatype RxRun = RxRun(state: Rx, popped: seq<Bits8>, bytes: seq<Bits8>)

  predicate LiveRx(xs: seq<RxIn>) {
    forall i :: 0 <= i < |xs| ==> xs[i].enable && !xs[i].softReset
  }

  function Lines(xs: seq<RxIn>): (line: seq<bool>)
    ensures |line| == |xs|
  {
    if xs == [] then [] else [xs[0].line] + Lines(xs[1..])
  }

  function PopOf(s: Rx, x: RxIn): seq<Bits8> {
    if x.pop && s.fifo != [] then [s.fifo[0]] else []
  }

  /** The receiver over a run of inputs: what the CPU popped, and every byte struck. */
  function RunRx(d: nat, s: Rx, xs: seq<RxIn>): RxRun
    requires d >= 1
    decreases |xs|
  {
    if xs == [] then RxRun(s, [], [])
    else
      var next := RxNext(d, s, xs[0]);
      var rest := RunRx(d, next, xs[1..]);
      RxRun(rest.state, PopOf(s, xs[0]) + rest.popped, Struck(next.core) + rest.bytes)
  }

  /** The byte struck in the last cycle reaches the FIFO in the next. */
  function Pending(c: RxCore): seq<Bits8> {
    NonRt(Struck(c))
  }

  predicate RxRoom(d: nat, s: Rx, xs: seq<RxIn>)
    requires d >= 1
    decreases |xs|
  {
    xs == [] ||
    ((s.core.strobe && !IsRt(s.core.byte) ==> |s.fifo| < FIFO_DEPTH) && RxRoom(d, RxNext(d, s, xs[0]), xs[1..]))
  }

  lemma PendingIs(c: RxCore)
    ensures Pending(c) == if c.strobe && !IsRt(c.byte) then [c.byte] else []
  {
    NonRtOne(c.byte);
  }

  lemma RxStepConserves(d: nat, s: Rx, x: RxIn)
    requires d >= 1 && (s.core.strobe && !IsRt(s.core.byte) ==> |s.fifo| < FIFO_DEPTH)
    ensures PopOf(s, x) + RxNext(d, s, x).fifo == s.fifo + Pending(s.core)
  {
    PendingIs(s.core);
    hide IsRt, CoreNext, Latched, Pending;
    if x.pop && s.fifo != [] {
      assert s.fifo == [s.fifo[0]] + s.fifo[1..];
    }
  }

  /** The sampler runs on the line alone. */
  lemma {:induction false} RxCoreRun(d: nat, s: Rx, xs: seq<RxIn>)
    requires d >= 1 && LiveRx(xs)
    ensures var r, c := RunRx(d, s, xs), RunCore(d, s.core, Lines(xs));
            r.state.core == c.core && r.bytes == c.bytes
    decreases |xs|
  {
    if xs != [] {
      assert xs[0].enable && !xs[0].softReset;
      RxCoreRun(d, RxNext(d, s, xs[0]), xs[1..]);
      assert Lines(xs)[1..] == Lines(xs[1..]);
      hide CoreNext;
    }
  }

  /** Data popped, queued and about to be queued are what was queued before and the
      data struck since, in order. */
  lemma {:induction false} RxConserves(d: nat, s: Rx, xs: seq<RxIn>)
    requires d >= 1 && RxRoom(d, s, xs)
    ensures var r := RunRx(d, s, xs);
            r.popped + (r.state.fifo + Pending(r.state.core)) == s.fifo + (Pending(s.core) + NonRt(r.bytes))
    decreases |xs|
  {
    if xs == [] {
      assert Pending(s.core) + [] == Pending(s.core);
    } else {
      RxStepConserves(d, s, xs[0]);
      hide RxNext, Pending;
      var next := RxNext(d, s, xs[0]);
      RxConserves(d, next, xs[1..]);
      var rest := RunRx(d, next, xs[1..]);
      NonRtAppend(Struck(next.core), rest.bytes);
      assert NonRt(Struck(next.core)) == Pending(next.core) by { PendingDef(next.core); }
      Regroup(PopOf(s, xs[0]), rest.popped, rest.state.fifo + Pending(rest.state.core), next.fifo,
              Pending(next.core) + NonRt(rest.bytes), s.fifo, Pending(s.core));
    }
  }

  lemma PendingDef(c: RxCore)
    ensures Pending(c) == NonRt(Struck(c))
  {
  }

  // ---- end to end ---------------------------------------------------------------------------

  /** From empty FIFOs, over any inputs on either side (pushes, real-time pulses, pops)
      that overflow neither, and for dividers as in StreamRoundTrip: what the receiving
      CPU has popped, what waits in its FIFO and the byte just struck are together
      exactly the non-real-time part of the data the transmitter has sent, in order;
      and the data sent and the data still queued are all that was pushed. */
  lemma DataRoundTrip(dt: nat, dr: nat, s: Tx, xs: seq<TxIn>, r: Rx, ys: seq<RxIn>)
    requires dt >= 1 && dr >= 1 && WaitFits(dr)
    requires dt <= dr + dr / 2 < 2 * dt && 8 * dt <= dr / 2 + 8 * dr < 9 * dt && dr / 2 + 9 * dr < 10 * dt
    requires Live(xs) && !s.busy && !RunTx(dt, s, xs).state.busy && SlotOk(s) && s.fifo == []
    requires !r.core.busy && r.core.prev && !r.core.strobe && r.fifo == []
    requires LiveRx(ys) && Lines(ys) == RunTx(dt, s, xs).wire
    requires TxRoom(dt, s, xs) && RxRoom(dr, r, ys)
    ensures var t, u := RunTx(dt, s, xs), RunRx(dr, r, ys);
            && u.bytes == Sent(t.loads)
            && u.popped + (u.state.fifo + Pending(u.state.core)) == NonRt(Data(t.loads))
            && Data(t.loads) + t.state.fifo == Pushes(xs)
  {
    StreamRoundTrip(dt, dr, s, xs, r.core);
    RxCoreRun(dr, r, ys);
    TxConserves(dt, s, xs);
    RtLoadsAreRt(dt, s, xs);
    RxConserves(dr, r, ys);
    PendingIs(r.core);
    hide RunTx, RunRx, RunCore, NonRt, Pending;
    var u := RunRx(dr, r, ys);
    assert [] + ([] + NonRt(u.bytes)) == NonRt(u.bytes);
    assert [] + Pushes(xs) == Pushes(xs);
  }
}
