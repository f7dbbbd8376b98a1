/** measurement.c and measurement_responder.c: the ping/pong exchange that samples
    the offset of a foreign session's ghost time. */
module Measurement {
  import opened Bytes
  import opened Tlv
  import Median
  import SeqTools

  const MAX_SAMPLES := 200
  const SAMPLE_THRESHOLD := 100
  const MAX_PINGS := 5
  const PING_INTERVAL_US := 50_000
  const MAX_MSG := 512

  /** "_link_v" 0x01. */
  const PROTO_LINK: seq<byte> := [0x5F, 0x6C, 0x69, 0x6E, 0x6B, 0x5F, 0x76, 0x01]

  /** Host microseconds, inside the range where the (int64_t) cast is the identity. */
  type Time = t: int | 0 <= t < 0x8000_0000_0000_0000

  // ---- messages --------------------------------------------------------------

  datatype Ping = Ping(ht: Time, pgt: Option<i64>)

  function Number(key: u32, v: i64): Entry {
    Entry(key, Put64(ToU64(v)))
  }

  function PingEntries(ping: Ping): seq<Entry> {
    [Number(KEY_HT, ping.ht)] + (if ping.pgt.Some? then [Number(KEY_PGT, ping.pgt.value)] else [])
  }

  function PingBytes(ping: Ping): seq<byte> {
    PROTO_LINK + [1] + Print(PingEntries(ping))
  }

  /** encode_ping. */
  method EncodePing(buf: array<byte>, ping: Ping) returns (n: nat)
    requires buf.Length == MAX_MSG
    modifies buf
    ensures n <= buf.Length && buf[..n] == PingBytes(ping)
  {
    hide Print, PrintEntry, Put64, ToU64;
    n := EmitRaw(buf, 0, PROTO_LINK + [1]);
    assert buf[..n] == PROTO_LINK + [1];
    n := EmitU64(buf, n, KEY_HT, ToU64(ping.ht));
    if ping.pgt.Some? {
      n := EmitU64(buf, n, KEY_PGT, ToU64(ping.pgt.value));
    }
    PrintPing(ping);
  }

  lemma PrintPing(ping: Ping)
    ensures Print(PingEntries(ping)) == PrintEntry(Number(KEY_HT, ping.ht))
              + (if ping.pgt.Some? then PrintEntry(Number(KEY_PGT, ping.pgt.value)) else [])
  {
    PrintOne(Number(KEY_HT, ping.ht));
    if ping.pgt.Some? {
      PrintOne(Number(KEY_PGT, ping.pgt.value));
      PrintAppend([Number(KEY_HT, ping.ht)], [Number(KEY_PGT, ping.pgt.value)]);
    }
  }

  /** What a PONG carries ahead of the echoed payload. */
  function PongHead(session: LinkId, stamp: u64): seq<Entry> {
    [Entry(KEY_SESS, session), Entry(KEY_GT, Put64(stamp))]
  }

  lemma PrintPongHead(session: LinkId, stamp: u64)
    ensures Print(PongHead(session, stamp))
         == PrintEntry(Entry(KEY_SESS, session)) + PrintEntry(Entry(KEY_GT, Put64(stamp)))
  {
    PrintOne(Entry(KEY_SESS, session));
    PrintOne(Entry(KEY_GT, Put64(stamp)));
    PrintAppend([Entry(KEY_SESS, session)], [Entry(KEY_GT, Put64(stamp))]);
  }

  /** The PONG a responder builds from a datagram: its session, its ghost time, then
      the payload it was sent, verbatim. None when it stays silent. */
  function Respond(buf: seq<byte>, session: LinkId, stamp: u64): Option<seq<byte>> {
    if |buf| < 9 || buf[..8] != PROTO_LINK || buf[8] != 1 then None
    else if |buf| - 9 > MAX_MSG - 41 then None
    else Some(PROTO_LINK + [2] + Print(PongHead(session, stamp)) + buf[9..])
  }

  /** measurement_responder_handle_rx: sends is the datagram handed to the network. */
  method ResponderHandleRx(buf: seq<byte>, session: LinkId, stamp: u64) returns (sends: Option<seq<byte>>)
    ensures sends == Respond(buf, session, stamp)
  {
    if |buf| < 9 || buf[..8] != PROTO_LINK || buf[8] != 1 { return None; }
    var out := new byte[MAX_MSG];
    var p := EmitRaw(out, 0, PROTO_LINK);
    out[p] := 2;
    p := p + 1;
    assert out[..p] == PROTO_LINK + [2];
    p := EmitBytes(out, p, KEY_SESS, session);
    p := EmitU64(out, p, KEY_GT, stamp);
    if |buf| - 9 > MAX_MSG - p { return None; }
    PrintPongHead(session, stamp);
    assert out[..p] == PROTO_LINK + [2] + Print(PongHead(session, stamp));
    p := EmitRaw(out, p, buf[9..]);
    return Some(out[..p]);
  }

  /** What the messages of the measurement begin with: "_link_v", 1 and their type. */
  function Head(mtype: byte): (s: seq<byte>)
    ensures |s| == 9
  {
    [0x5F, 0x6C, 0x69, 0x6E, 0x6B, 0x5F, 0x76, 1, mtype]
  }

  predicate LooksLike(buf: seq<byte>, mtype: byte) {
    |buf| >= 9 && buf[..9] == Head(mtype)
  }

  /** pong_ctx_t. */
  datatype PongCtx = PongCtx(ht: i64, gt: i64, pgt: i64, haveHt: bool, haveGt: bool, havePgt: bool,
                             sess: LinkId, haveSess: bool)

  const EMPTY_CTX := PongCtx(0, 0, 0, false, false, false, ZERO_ID, false)

  /** pong_handler. */
  function PongHandler(ctx: PongCtx, e: Entry): (PongCtx, bool) {
    if e.key !in {KEY_HT, KEY_GT, KEY_PGT, KEY_SESS} then (ctx, true)
    else if |e.value| != 8 then (ctx, false)
    else if e.key == KEY_HT then (ctx.(ht := ToI64(Be64(e.value)), haveHt := true), true)
    else if e.key == KEY_GT then (ctx.(gt := ToI64(Be64(e.value)), haveGt := true), true)
    else if e.key == KEY_PGT then (ctx.(pgt := ToI64(Be64(e.value)), havePgt := true), true)
    else (ctx.(sess := e.value, haveSess := true), true)
  }

  /** What a PONG datagram tells the measurer; None when it is not a usable PONG. */
  function ParsePong(buf: seq<byte>): Option<PongCtx> {
    if |buf| < 9 || buf[..8] != PROTO_LINK || buf[8] != 2 then None
    else
      var walked := Walk(buf[9..], PongHandler, EMPTY_CTX);
      if walked.1 && walked.0.haveHt && walked.0.haveGt && walked.0.haveSess then Some(walked.0) else None
  }

  /** The PONG context that answers a given ping. */
  function Answer(ping: Ping, sess: LinkId, gt: i64): PongCtx {
    PongCtx(ping.ht, gt, if ping.pgt.Some? then ping.pgt.value else 0,
            true, true, ping.pgt.Some?, sess, true)
  }

  lemma PongShape(ping: Ping, sess: LinkId, stamp: u64)
    ensures Respond(PingBytes(ping), sess, stamp)
         == Some(PROTO_LINK + [2] + Print(PongHead(sess, stamp) + PingEntries(ping)))
  {
    var payload := Print(PingEntries(ping));
    PrintPing(ping);
    assert |payload| <= 32;
    var buf := PingBytes(ping);
    assert buf[..8] == PROTO_LINK && buf[8] == 1 && buf[9..] == payload;
    PrintAppend(PongHead(sess, stamp), PingEntries(ping));
    SeqTools.Assoc(PROTO_LINK + [2], Print(PongHead(sess, stamp)), payload);
  }

  /** The round trip over the wire: a responder answers every encoded ping, and the
      measurer reads off the answer the responder's session and ghost stamp and
      exactly the host time and previous stamp it had put in the ping. */
  lemma PongRoundTrip(ping: Ping, sess: LinkId, gt: i64)
    ensures Respond(PingBytes(ping), sess, ToU64(gt)).Some?
    ensures ParsePong(Respond(PingBytes(ping), sess, ToU64(gt)).value) == Some(Answer(ping, sess, gt))
  {
    PongShape(ping, sess, ToU64(gt));
    var es := PongHead(sess, ToU64(gt)) + PingEntries(ping);
    var pong := PROTO_LINK + [2] + Print(es);
    assert pong[..8] == PROTO_LINK && pong[8] == 2 && pong[9..] == Print(es);
    WalkFeedsPrinted(es, [], PongHandler, EMPTY_CTX);
    assert Print(es) + [] == Print(es);
    FeedPong(ping, sess, gt);
  }

  lemma FeedPong(ping: Ping, sess: LinkId, gt: i64)
    ensures Feed(PongHandler, EMPTY_CTX, PongHead(sess, ToU64(gt)) + PingEntries(ping))
              == (Answer(ping, sess, gt), true)
  {
    var es := PongHead(sess, ToU64(gt)) + PingEntries(ping);
    var c1 := EMPTY_CTX.(sess := sess, haveSess := true);
    var c2 := c1.(gt := gt, haveGt := true);
    var c3 := c2.(ht := ping.ht, haveHt := true);
    assert Feed(PongHandler, EMPTY_CTX, es) == Feed(PongHandler, c1, es[1..]);
    assert Feed(PongHandler, c1, es[1..]) == Feed(PongHandler, c2, es[1..][1..]);
    assert es[1..][1..] == PingEntries(ping);
    var rest := PingEntries(ping)[1..];
    assert Feed(PongHandler, c2, PingEntries(ping)) == Feed(PongHandler, c3, rest);
    if ping.pgt.Some? {
      assert rest == [Number(KEY_PGT, ping.pgt.value)] && rest[1..] == [];
      assert Feed(PongHandler, c3, rest)
          == Feed(PongHandler, c3.(pgt := ping.pgt.value, havePgt := true), rest[1..]);
    } else {
      assert rest == [];
    }
  }

  // ---- the state machine -------------------------------------------------------

  /** A measurement in progress; None is the idle machine, whose other fields the
      next start clears. */
  datatype Run = Run(addr: u32, port: u16, session: LinkId, pingsSent: nat, nextSend: nat,
                     prevGhost: i64, prevHost: Time, samples: seq<int>)
  type State = Option<Run>

  /** A call of the completion callback. */
  datatype Completion = Failed | Measured(intercept: int)

  datatype Outcome = Outcome(state: State, sent: Option<Ping>, done: Option<Completion>)

  /** send_ping, whose two clock reads are now and later. */
  function AfterPing(run: Run, now: Time, later: Time): Outcome {
    var ping := Ping(now, if run.pingsSent > 0 then Some(run.prevGhost) else None);
    Outcome(Some(run.(prevHost := now, pingsSent := run.pingsSent + 1, nextSend := later + PING_INTERVAL_US)),
            Some(ping), None)
  }

  function AfterStart(st: State, addr: u32, port: u16, session: LinkId, now: Time, later: Time): Outcome {
    if st.Some? then Outcome(st, None, None)
    else AfterPing(Run(addr, port, session, 0, 0, 0, 0, []), now, later)
  }

  function AfterTick(st: State, clock: Time, now: Time, later: Time): Outcome {
    if st.None? || clock < st.value.nextSend then Outcome(st, None, None)
    else if st.value.pingsSent >= MAX_PINGS then Outcome(None, None, Some(Failed))
    else AfterPing(st.value, now, later)
  }

  /** The sample buffer after a PONG received at host time clock. */
  function Sampled(run: Run, pong: PongCtx, clock: Time): seq<int> {
    var s1 := run.samples
      + (if |run.samples| < MAX_SAMPLES then [pong.gt - CDiv(clock + pong.ht, 2)] else []);
    s1 + (if pong.havePgt && run.prevHost != 0 && |s1| < MAX_SAMPLES
          then [CDiv(pong.gt + pong.pgt, 2) - pong.ht] else [])
  }

  /** What a usable PONG from the target does. */
  function AfterPong(run: Run, pong: PongCtx, clock: Time, now: Time, later: Time): Outcome {
    if pong.sess != run.session then Outcome(None, None, Some(Failed))
    else
      var samples := Sampled(run, pong, clock);
      if |samples| > SAMPLE_THRESHOLD then Outcome(None, None, Some(Measured(Median.MedianOf(samples))))
      else AfterPing(run.(samples := samples, prevGhost := pong.gt), now, later)
  }

  function AfterRx(st: State, buf: seq<byte>, addr: u32, port: u16, clock: Time, now: Time, later: Time): Outcome {
    if st.None? || addr != st.value.addr || port != st.value.port then Outcome(st, None, None)
    else
      var pong := ParsePong(buf);
      if pong.None? then Outcome(st, None, None) else AfterPong(st.value, pong.value, clock, now, later)
  }

  /** The static state of measurement.c. A sent ping and a completion callback are
      handed back to the caller. */
  class Machine {
    var active: bool
    var addr: u32
    var port: u16
    var session: LinkId
    var pingsSent: nat
    var nextSend: nat
    var prevGhost: i64
    var prevHost: Time
    const samples: array<int>
    var nSamples: nat

    ghost predicate Valid()
      reads this
    {
      samples.Length == MAX_SAMPLES && nSamples <= MAX_SAMPLES
    }

    ghost function Abs(): State
      requires Valid()
      reads this, samples
    {
      if !active then None
      else Some(Run(addr, port, session, pingsSent, nextSend, prevGhost, prevHost, samples[..nSamples]))
    }

    constructor ()
      ensures Valid() && Abs() == None && fresh(samples)
    {
      active, addr, port, session := false, 0, 0, ZERO_ID;
      pingsSent, nextSend, prevGhost, prevHost, nSamples := 0, 0, 0, 0, 0;
      samples := new int[MAX_SAMPLES];
    }

    method SendPing(now: Time, later: Time) returns (sent: Option<Ping>)
      requires Valid() && active
      modifies this
      ensures Valid()
      ensures Outcome(Abs(), sent, None) == AfterPing(old(Abs()).value, now, later)
    {
      sent := Some(Ping(now, if pingsSent > 0 then Some(prevGhost) else None));
      prevHost := now;
      pingsSent := pingsSent + 1;
      nextSend := later + PING_INTERVAL_US;
    }

    method Start(addr: u32, port: u16, session: LinkId, now: Time, later: Time) returns (sent: Option<Ping>)
      requires Valid()
      modifies this
      ensures Valid()
      ensures Outcome(Abs(), sent, None) == AfterStart(old(Abs()), addr, port, session, now, later)
    {
      if active { return None; }
      pingsSent, nextSend, prevGhost, prevHost, nSamples := 0, 0, 0, 0, 0;
      active := true;
      this.addr, this.port, this.session := addr, port, session;
      sent := SendPing(now, later);
    }

    method Tick(clock: Time, now: Time, later: Time) returns (sent: Option<Ping>, done: Option<Completion>)
      requires Valid()
      modifies this
      ensures Valid()
      ensures Outcome(Abs(), sent, done) == AfterTick(old(Abs()), clock, now, later)
    {
      sent, done := None, None;
      if !active { return; }
      if clock >= nextSend {
        if pingsSent >= MAX_PINGS {
          active := false;
          return None, Some(Failed);
        }
        sent := SendPing(now, later);
      }
    }

    /** The part of measurement_handle_rx that fills in the PONG context. */
    static method Parse(buf: seq<byte>) returns (pong: Option<PongCtx>)
      ensures pong == ParsePong(buf)
    {
      if |buf| < 9 || buf[..8] != PROTO_LINK || buf[8] != 2 { return None; }
      var ctx, ok := TlvWalk(buf[9..], PongHandler, EMPTY_CTX);
      if !ok || !ctx.haveHt || !ctx.haveGt || !ctx.haveSess { return None; }
      return Some(ctx);
    }

    /** The part of measurement_handle_rx that appends the samples. */
    method TakeSamples(pong: PongCtx, clock: Time)
      requires Valid() && active
      modifies this, samples
      ensures Valid() && active
      ensures Abs() == Some(old(Abs()).value.(samples := Sampled(old(Abs()).value, pong, clock),
                                              prevGhost := pong.gt))
    {
      ghost var s := samples[..nSamples];
      if nSamples < MAX_SAMPLES {
        samples[nSamples] := pong.gt - CDiv(clock + pong.ht, 2);
        nSamples := nSamples + 1;
      }
      assert samples[..nSamples]
          == s + if |s| < MAX_SAMPLES then [pong.gt - CDiv(clock + pong.ht, 2)] else [];
      ghost var s1 := samples[..nSamples];
      if pong.havePgt && prevHost != 0 && nSamples < MAX_SAMPLES {
        samples[nSamples] := CDiv(pong.gt + pong.pgt, 2) - pong.ht;
        nSamples := nSamples + 1;
      }
      assert samples[..nSamples]
          == s1 + if pong.havePgt && prevHost != 0 && |s1| < MAX_SAMPLES
                  then [CDiv(pong.gt + pong.pgt, 2) - pong.ht] else [];
      prevGhost := pong.gt;
    }

    method HandleRx(buf: seq<byte>, srcAddr: u32, srcPort: u16, clock: Time, now: Time, later: Time)
      returns (sent: Option<Ping>, done: Option<Completion>)
      requires Valid()
      modifies this, samples
      ensures Valid()
      ensures Outcome(Abs(), sent, done) == AfterRx(old(Abs()), buf, srcAddr, srcPort, clock, now, later)
    {
      sent, done := None, None;
      if !active || srcAddr != addr || srcPort != port { return; }
      var pong := Parse(buf);
      if pong.None? { return; }
      if pong.value.sess != session {
        active := false;
        return None, Some(Failed);
      }
      TakeSamples(pong.value, clock);
      if nSamples > SAMPLE_THRESHOLD {
        var intercept := Median.MedianInPlace(samples, nSamples);
        active := false;
        return None, Some(Measured(intercept));
      }
      sent := SendPing(now, later);
    }
  }

  // ---- every run ends ------------------------------------------------------------

  ghost predicate Bounded(st: State) {
    st.Some? ==> |st.value.samples| <= SAMPLE_THRESHOLD && 1 <= st.value.pingsSent
  }

  /** How much a run has left: samples still to come plus timer pings still allowed. */
  function Remaining(st: State): (r: nat)
    requires Bounded(st)
  {
    if st.None? then 0
    else 1 + (SAMPLE_THRESHOLD - |st.value.samples|)
           + (if st.value.pingsSent < MAX_PINGS then MAX_PINGS - st.value.pingsSent else 0)
  }

  /** Events of one run. A fired timer ping needs fewer than five pings sent, so
      one run holds at most four; an event either leaves the machine untouched or
      strictly lowers what remains, and it completes exactly when nothing does. */
  lemma AcceptProgress(run: Run, pong: PongCtx, clock: Time, now: Time, later: Time)
    requires Bounded(Some(run))
    ensures var o := AfterPong(run, pong, clock, now, later);
            && Bounded(o.state) && Remaining(o.state) < Remaining(Some(run))
            && (o.done.Some? <==> o.state.None?)
            && (o.state.Some? ==> |run.samples| < |o.state.value.samples| <= |run.samples| + 2)
            && (o.done.Some? && o.done.value.Measured? ==> 101 <= |Sampled(run, pong, clock)| <= 102)
  {
  }

  lemma TickProgress(st: State, clock: Time, now: Time, later: Time)
    requires Bounded(st) && st.Some?
    ensures var o := AfterTick(st, clock, now, later);
            if clock < st.value.nextSend then o == Outcome(st, None, None)
            else
              && Bounded(o.state) && Remaining(o.state) < Remaining(st)
              && (o.done == if o.state.None? then Some(Failed) else None)
              && (o.sent.Some? <==> st.value.pingsSent < MAX_PINGS)
  {
  }

  /** A PONG that carries another session than the one under measurement ends the
      run: this is how a measurement against a node that has switched fails. */
  lemma SwitchedTargetFails(run: Run, ping: Ping, sess: LinkId, gt: i64, clock: Time, now: Time, later: Time)
    requires sess != run.session
    ensures var pong := Respond(PingBytes(ping), sess, ToU64(gt));
            && pong.Some?
            && AfterRx(Some(run), pong.value, run.addr, run.port, clock, now, later)
               == Outcome(None, None, Some(Failed))
  {
    PongRoundTrip(ping, sess, gt);
  }

  // ---- the unanswered run ------------------------------------------------------------

  /** The clock reads of a call of measurement_tick. */
  datatype Wake = Wake(clock: Time, now: Time, later: Time)

  function Silence(st: State, wakes: seq<Wake>): State
    decreases |wakes|
  {
    if wakes == [] then st
    else Silence(AfterTick(st, wakes[0].clock, wakes[0].now, wakes[0].later).state, wakes[1..])
  }

  /** Clock reads in order, from some time on, and at least gap after the call before. */
  predicate Awake(from: Time, wakes: seq<Wake>, gap: nat)
    decreases |wakes|
  {
    wakes == [] || (from + gap <= wakes[0].clock <= wakes[0].now <= wakes[0].later && Awake(wakes[0].later, wakes[1..], gap))
  }

  /** A run that has sent k pings by itself has lasted 50 ms for each. */
  lemma {:induction false} SilenceLasts(st: State, from: Time, wakes: seq<Wake>, t0: nat)
    requires Awake(from, wakes, 0)
    requires st.Some? && 1 <= st.value.pingsSent <= 5 && st.value.nextSend >= t0 + 50_000 * st.value.pingsSent
    ensures Silence(st, wakes).None? ==> wakes != [] && wakes[|wakes| - 1].clock >= t0 + 250_000
    decreases |wakes|
  {
    if wakes != [] {
      var b, next := wakes[0], AfterTick(st, wakes[0].clock, wakes[0].now, wakes[0].later).state;
      if next.Some? {
        SilenceLasts(next, b.later, wakes[1..], t0);
      } else {
        IdleStays(wakes[1..]);
        if |wakes| > 1 {
          LastIsLatest(b.later, wakes[1..]);
        }
      }
    }
  }

  lemma {:induction false} IdleStays(wakes: seq<Wake>)
    ensures Silence(None, wakes) == None
    decreases |wakes|
  {
    if wakes != [] {
      IdleStays(wakes[1..]);
    }
  }

  lemma {:induction false} LastIsLatest(from: Time, wakes: seq<Wake>)
    requires Awake(from, wakes, 0) && wakes != []
    ensures from <= wakes[|wakes| - 1].clock
    decreases |wakes|
  {
    if |wakes| > 1 {
      LastIsLatest(wakes[0].later, wakes[1..]);
    }
  }

  /** A run that nobody answers fails, not before 250 ms after its first ping, whenever it is
      ticked, and by the fifth tick when ticks are 50 ms apart or more. */
  lemma UnansweredRunFails(addr: u32, port: u16, session: LinkId, now: Time, later: Time, wakes: seq<Wake>)
    requires now <= later && Awake(later, wakes, 0)
    ensures var st := AfterStart(None, addr, port, session, now, later).state;
            && (Silence(st, wakes).None? ==> wakes != [] && wakes[|wakes| - 1].clock >= later + 250_000)
            && (Awake(later, wakes, 50_000) && |wakes| >= 5 ==> Silence(st, wakes).None?)
  {
    var st := AfterStart(None, addr, port, session, now, later).state;
    SilenceLasts(st, later, wakes, later);
    if Awake(later, wakes, 50_000) && |wakes| >= 5 {
      SilenceEnds(st, later, wakes);
    }
  }

  lemma {:induction false} SilenceEnds(st: State, from: Time, wakes: seq<Wake>)
    requires st.Some? && 1 <= st.value.pingsSent <= 5 && st.value.nextSend == from + 50_000
    requires Awake(from, wakes, 50_000) && |wakes| + st.value.pingsSent >= 6
    ensures Silence(st, wakes).None?
    decreases |wakes|
  {
    var b := wakes[0];
    var next := AfterTick(st, b.clock, b.now, b.later).state;
    if next.Some? {
      SilenceEnds(next, b.later, wakes[1..]);
    } else {
      IdleStays(wakes[1..]);
    }
  }

  // ---- the undisturbed exchange --------------------------------------------------

  /** One PONG of an exchange in which every PONG beats the 50 ms timer: its ghost
      stamp and the clock reads of the handler. */
  datatype Beat = Beat(gt: i64, clock: Time, now: Time, later: Time)

  /** Each PONG echoes the latest ping and comes from the session under measurement. */
  function Volley(o: Outcome, beats: seq<Beat>): Outcome
    requires o.state.Some? ==> o.sent.Some?
    decreases |beats|
  {
    if beats == [] || o.state.None? then o
    else
      var b := beats[0];
      Volley(AfterPong(o.state.value, Answer(o.sent.value, o.state.value.session, b.gt), b.clock, b.now, b.later),
             beats[1..])
  }

  predicate Ordered(from: Time, beats: seq<Beat>)
    decreases |beats|
  {
    beats == [] || (from <= beats[0].clock <= beats[0].now <= beats[0].later && Ordered(beats[0].later, beats[1..]))
  }

  /** Success with the median of n samples. */
  ghost predicate MedianOfSamples(done: Option<Completion>, n: nat) {
    exists samples: seq<int> :: |samples| == n && done == Some(Measured(Median.MedianOf(samples)))
  }

  /** While previous stamps are usable every PONG brings two samples. */
  lemma {:induction false} VolleyTwos(o: Outcome, beats: seq<Beat>)
    requires o.state.Some? && o.sent.Some? && o.sent.value.pgt.Some? && o.done.None?
    requires o.state.value.prevHost > 0 && o.state.value.pingsSent > 0
    requires Ordered(o.state.value.prevHost, beats)
    requires |o.state.value.samples| + 2 * |beats| <= 102 && |o.state.value.samples| < 101
    ensures var out := Volley(o, beats);
            if |o.state.value.samples| + 2 * |beats| <= 100
            then out.done.None? && out.state.Some?
                 && |out.state.value.samples| == |o.state.value.samples| + 2 * |beats|
            else out.state.None? && MedianOfSamples(out.done, |o.state.value.samples| + 2 * |beats|)
    decreases |beats|
  {
    if beats != [] {
      var b, run := beats[0], o.state.value;
      var pong := Answer(o.sent.value, run.session, b.gt);
      var next := AfterPong(run, pong, b.clock, b.now, b.later);
      assert |Sampled(run, pong, b.clock)| == |run.samples| + 2;
      if next.state.Some? {
        OrderedLater(run.prevHost, b.now, beats);
        VolleyTwos(next, beats[1..]);
      } else {
        assert beats[1..] == [] && Volley(next, beats[1..]) == next;
        assert next.done == Some(Measured(Median.MedianOf(Sampled(run, pong, b.clock))));
      }
    }
  }

  lemma OrderedLater(from: Time, to: Time, beats: seq<Beat>)
    requires beats != [] && Ordered(from, beats) && to <= beats[0].later
    ensures Ordered(to, beats[1..])
  {
  }

  /** No PONG brings more than two samples. */
  lemma {:induction false} VolleyAtMostTwos(o: Outcome, beats: seq<Beat>)
    requires o.state.Some? && o.sent.Some? && o.done.None?
    requires |o.state.value.samples| + 2 * |beats| <= 100
    ensures Volley(o, beats).state.Some? && Volley(o, beats).done.None?
    decreases |beats|
  {
    if beats != [] {
      var b, run := beats[0], o.state.value;
      var pong := Answer(o.sent.value, run.session, b.gt);
      assert |Sampled(run, pong, b.clock)| <= |run.samples| + 2;
      VolleyAtMostTwos(AfterPong(run, pong, b.clock, b.now, b.later), beats[1..]);
    }
  }

  /** When every PONG beats the timer: after k PONGs, 1 <= k <= 50, the run is still
      in progress with 2k - 1 samples, and the 51st PONG completes it successfully,
      with 101 samples. The one exception is a host clock that still reads 0 when the
      second ping goes out (the handler takes a previous host time of 0 for "none"):
      then, and only then, 51 PONGs are not enough. */
  lemma FiftyOnePongs(addr: u32, port: u16, session: LinkId, now: Time, later: Time, beats: seq<Beat>)
    requires now <= later && Ordered(later, beats) && 1 <= |beats| <= 51
    ensures var out := Volley(AfterStart(None, addr, port, session, now, later), beats);
            && (|beats| <= 50 ==> out.state.Some? && out.done.None?)
            && (|beats| <= 50 && beats[0].now > 0 ==> |out.state.value.samples| == 2 * |beats| - 1)
            && (|beats| == 51 ==>
                  if beats[0].now > 0 then MedianOfSamples(out.done, 101) else out.state.Some?)
  {
    var start := AfterStart(None, addr, port, session, now, later);
    var run, b := start.state.value, beats[0];
    var pong := Answer(start.sent.value, session, b.gt);
    var first := AfterPong(run, pong, b.clock, b.now, b.later);
    assert Sampled(run, pong, b.clock) == [b.gt - CDiv(b.clock + now, 2)];
    assert |first.state.value.samples| == 1;
    if b.now > 0 {
      OrderedLater(later, b.now, beats);
      VolleyTwos(first, beats[1..]);
    } else if |beats| >= 2 {
      var c, run1 := beats[1], first.state.value;
      var pong1 := Answer(first.sent.value, session, c.gt);
      var second := AfterPong(run1, pong1, c.clock, c.now, c.later);
      assert |Sampled(run1, pong1, c.clock)| == 2;
      VolleyAtMostTwos(second, beats[1..][1..]);
    }
  }
}
