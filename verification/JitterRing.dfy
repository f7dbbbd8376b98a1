/** The jitter ring of a subscription: 1024 samples behind two free-running 32-bit
    indices that wrap. It behaves as a FIFO of capacity 1024 that drops its oldest
    sample when full. */
module JitterRing {
  import opened Bytes

  const LEN := 1024
  const WRAP := 0x1_0000_0000

  /** The buffer and the write and read indices. */
  datatype Ring = Ring(buf: seq<u16>, w: u32, r: u32)

  /** jbuf_w - jbuf_r in 32-bit arithmetic. */
  function Level(s: Ring): nat {
    (s.w - s.r) % WRAP
  }

  predicate Valid(s: Ring) {
    |s.buf| == LEN && Level(s) <= LEN
  }

  /** The slot of the i-th sample after read index r. */
  function Slot(r: nat, i: nat): (k: nat)
    ensures k < LEN
  {
    (r + i) % LEN
  }

  /** The samples held, oldest first. */
  function Contents(s: Ring): (c: seq<u16>)
    requires Valid(s)
    ensures |c| == Level(s)
  {
    seq(Level(s), i requires 0 <= i < Level(s) => s.buf[Slot(s.r, i)])
  }

  function Push(s: Ring, v: u16): Ring
    requires |s.buf| == LEN
  {
    var w := (s.w + 1) % WRAP;
    Ring(s.buf[s.w % LEN := v], w, if (w - s.r) % WRAP > LEN then (w - LEN) % WRAP else s.r)
  }

  /** The sample drained, if there is one. */
  function Drain(s: Ring): (Ring, Option<u16>)
    requires |s.buf| == LEN
  {
    if s.r == s.w then (s, None)
    else (s.(r := (s.r + 1) % WRAP), Some(s.buf[s.r % LEN]))
  }

  // ---- the FIFO it refines -----------------------------------------------------------

  /** The newest 1024 of a sequence of samples. */
  function Newest(c: seq<u16>): (d: seq<u16>)
    ensures |d| <= LEN
  {
    if |c| <= LEN then c else c[|c| - LEN..]
  }

  lemma NewestMeans(c: seq<u16>)
    ensures |Newest(c)| == (if |c| <= 1024 then |c| else 1024) && Newest(c) == c[|c| - |Newest(c)|..]
  {
  }

  /** Index arithmetic: 1024 divides the wrap, so slots continue across it. */
  lemma SlotAcrossWrap(r: u32, i: nat)
    ensures Slot((r + 1) % WRAP, i) == Slot(r, i + 1)
  {
    if r + 1 == WRAP {
      assert WRAP + i == LEN * 0x40_0000 + i;
    }
  }

  lemma SlotsDiffer(r: nat, i: nat, j: nat)
    requires i < j < i + LEN
    ensures Slot(r, i) != Slot(r, j)
  {
  }

  /** The write index points at the slot after the last sample. */
  lemma WriteSlot(s: Ring)
    requires Valid(s)
    ensures s.w % LEN == Slot(s.r, Level(s))
    ensures ((s.w + 1) % WRAP - s.r) % WRAP == Level(s) + 1
    ensures Level(s) == LEN ==> ((s.w + 1) % WRAP - LEN) % WRAP == (s.r + 1) % WRAP
  {
  }

  lemma LevelOf(s: Ring, w: u32, r: u32, n: nat)
    requires Level(s) == n && s.w == w && s.r == r
    ensures n < LEN ==> Level(Ring(s.buf, (w + 1) % WRAP, r)) == n + 1
    ensures n == LEN ==> Level(Ring(s.buf, (w + 1) % WRAP, (r + 1) % WRAP)) == LEN
    ensures n > 0 ==> Level(Ring(s.buf, w, (r + 1) % WRAP)) == n - 1
    ensures n == 0 <==> r == w
  {
  }

  /** Pushing onto the ring pushes onto the FIFO, dropping the oldest sample when it is
      full, wherever the indices are in their 32-bit range. */
  lemma PushRefines(s: Ring, v: u16)
    requires Valid(s)
    ensures Valid(Push(s, v)) && Contents(Push(s, v)) == Newest(Contents(s) + [v])
  {
    var t, n, c := Push(s, v), Level(s), Contents(s) + [v];
    WriteSlot(s);
    LevelOf(s, s.w, s.r, n);
    hide Level, Slot;
    assert t.buf == s.buf[Slot(s.r, n) := v];
    if n < LEN {
      forall i | 0 <= i <= n
        ensures Contents(t)[i] == c[i]
      {
        if i < n { SlotsDiffer(s.r, i, n); }
      }
    } else {
      forall i | 0 <= i < LEN
        ensures Contents(t)[i] == c[i + 1]
      {
        SlotAcrossWrap(s.r, i);
        if i < LEN - 1 { SlotsDiffer(s.r, i + 1, LEN); }
      }
    }
  }

  /** Draining takes the oldest sample, or nothing from an empty ring. */
  lemma DrainRefines(s: Ring)
    requires Valid(s)
    ensures Valid(Drain(s).0)
    ensures if Contents(s) == [] then Drain(s) == (s, None)
            else Drain(s).1 == Some(Contents(s)[0]) && Contents(Drain(s).0) == Contents(s)[1..]
  {
    LevelOf(s, s.w, s.r, Level(s));
    assert s.r % LEN == Slot(s.r, 0);
    hide Level, Slot;
    if Contents(s) != [] {
      var t := Drain(s).0;
      forall i | 0 <= i < |Contents(t)|
        ensures Contents(t)[i] == Contents(s)[i + 1]
      {
        SlotAcrossWrap(s.r, i);
      }
    }
  }

  datatype Op = PushOp(v: u16) | DrainOp

  /** Any interleaving of pushes and drains: the ring afterwards, and what was drained. */
  function Run(s: Ring, ops: seq<Op>): (Ring, seq<u16>)
    requires |s.buf| == LEN
    decreases |ops|
  {
    if ops == [] then (s, [])
    else if ops[0].PushOp? then Run(Push(s, ops[0].v), ops[1..])
    else
      var d := Drain(s);
      var rest := Run(d.0, ops[1..]);
      (rest.0, (if d.1.Some? then [d.1.value] else []) + rest.1)
  }

  /** The same operations on the FIFO. */
  function RunFifo(c: seq<u16>, ops: seq<Op>): (seq<u16>, seq<u16>)
    decreases |ops|
  {
    if ops == [] then (c, [])
    else if ops[0].PushOp? then RunFifo(Newest(c + [ops[0].v]), ops[1..])
    else if c == [] then RunFifo(c, ops[1..])
    else
      var rest := RunFifo(c[1..], ops[1..]);
      (rest.0, [c[0]] + rest.1)
  }

  /** The ring refines the FIFO over every run of pushes and drains. */
  lemma {:induction false} RunRefines(s: Ring, ops: seq<Op>)
    requires Valid(s)
    ensures Valid(Run(s, ops).0)
    ensures (Contents(Run(s, ops).0), Run(s, ops).1) == RunFifo(Contents(s), ops)
    decreases |ops|
  {
    hide Contents, Level, Newest;
    if ops != [] {
      if ops[0].PushOp? {
        PushRefines(s, ops[0].v);
        hide Push;
        RunRefines(Push(s, ops[0].v), ops[1..]);
      } else {
        DrainRefines(s);
        hide Drain;
        assert [] + Run(Drain(s).0, ops[1..]).1 == Run(Drain(s).0, ops[1..]).1;
        RunRefines(Drain(s).0, ops[1..]);
      }
    }
  }

  // ---- the ring in place ---------------------------------------------------------------

  /** The ring part of link_audio_sub_t. */
  class Jitter {
    const jbuf: array<u16>
    var jbufW: u32
    var jbufR: u32

    ghost function Abs(): Ring
      reads this, jbuf
    {
      Ring(jbuf[..], jbufW, jbufR)
    }

    constructor ()
      ensures fresh(jbuf) && Valid(Abs()) && Contents(Abs()) == []
    {
      jbuf := new u16[LEN];
      jbufW, jbufR := 0, 0;
    }

    method PushSample(v: u16)
      requires Valid(Abs())
      modifies this, jbuf
      ensures Abs() == Push(old(Abs()), v)
      ensures Valid(Abs()) && Contents(Abs()) == Newest(old(Contents(Abs())) + [v])
    {
      PushRefines(Abs(), v);
      jbuf[jbufW % LEN] := v;
      jbufW := (jbufW + 1) % WRAP;
      if (jbufW - jbufR) % WRAP > LEN {
        jbufR := (jbufW - LEN) % WRAP;
      }
    }

    method DrainSample() returns (v: Option<u16>)
      requires Valid(Abs())
      modifies `jbufR
      ensures (Abs(), v) == Drain(old(Abs()))
      ensures Valid(Abs())
      ensures if old(Contents(Abs())) == [] then v == None && Contents(Abs()) == []
              else v == Some(old(Contents(Abs()))[0]) && Contents(Abs()) == old(Contents(Abs()))[1..]
    {
      DrainRefines(Abs());
      if jbufR == jbufW { return None; }
      v := Some(jbuf[jbufR % LEN]);
      jbufR := (jbufR + 1) % WRAP;
    }
  }
}
