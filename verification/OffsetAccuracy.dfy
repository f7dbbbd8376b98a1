/** The measurement against a responder whose ghost clock runs at a constant offset
    theta from the measurer's host clock, over a network that may lose, delay and
    reorder datagrams but neither forges nor duplicates them. Other senders may send
    anything at any time. Every run of this system keeps an invariant that bounds the
    median's error. */
module OffsetAccuracy {
  import opened Bytes
  import opened Measurement
  import opened SeqTools
  import opened Tlv
  import Median

  datatype World = World(addr: u32, port: u16, theta: int)

  /** A PING on its way. answered records whether the run that sent it had accepted
      a PONG by then, that is, whether the previous stamp it carries (if any) is one. */
  datatype Flight = Flight(ping: Ping, answered: bool)

  /** A PONG on its way: the flight it echoes, the responder's session, and the host
      instant at which the responder stamped it. */
  datatype Reply = Reply(flight: Flight, sess: LinkId, stamp: Time)

  /** Where a sample came from: an interval of host time that brackets it (from send
      to receive, or from the previous stamp to this one), or a PONG that echoes the
      previous stamp 0 of a ping sent before any PONG was accepted. */
  datatype Origin = Bracket(from: int, to: int) | ZeroStamp

  datatype Sys = Sys(state: State, pings: seq<Flight>, pongs: seq<Reply>, now: Time,
                     accepted: nat, timerPings: nat, origins: seq<Origin>, runs: nat, completions: nat)

  datatype Event =
    | StartRun(session: LinkId, now: Time, later: Time)
    | TickRun(clock: Time, now: Time, later: Time)
    | AnswerPing(i: nat, sess: LinkId, stamp: Time)
    | DeliverPong(i: nat, clock: Time, now: Time, later: Time)
    | LosePing(i: nat)
    | LosePong(i: nat)
    | HearStray(buf: seq<byte>, addr: u32, port: u16, clock: Time, now: Time, later: Time)

  /** The datagram behind a reply. */
  function Datagram(w: World, r: Reply): seq<byte>
    requires InI64(r.stamp + w.theta)
  {
    var bytes := Respond(PingBytes(r.flight.ping), r.sess, ToU64(r.stamp + w.theta));
    if bytes.Some? then bytes.value else []
  }

  /** Host time does not run backwards, and a stamp fits the 64-bit ghost clock. */
  predicate Enabled(w: World, s: Sys, e: Event) {
    match e
    case StartRun(_, now, later) => s.now <= now <= later
    case TickRun(clock, now, later) => s.now <= clock <= now <= later
    case AnswerPing(i, _, stamp) => i < |s.pings| && s.now <= stamp && InI64(stamp + w.theta)
    case DeliverPong(i, clock, now, later) =>
      i < |s.pongs| && s.now <= clock <= now <= later && InI64(s.pongs[i].stamp + w.theta)
    case LosePing(i) => i < |s.pings|
    case LosePong(i) => i < |s.pongs|
    case HearStray(buf, addr, port, clock, now, later) =>
      s.now <= clock <= now <= later && (addr != w.addr || port != w.port || !LooksLike(buf, 2))
  }

  function Launched(s: Sys, sent: Option<Ping>): seq<Flight> {
    if sent.Some? then s.pings + [Flight(sent.value, s.accepted > 0)] else s.pings
  }

  /** The outcome of handing the i-th PONG in flight to the measurement. */
  function Delivery(w: World, s: Sys, e: Event): Outcome
    requires e.DeliverPong? && Enabled(w, s, e)
  {
    AfterRx(s.state, Datagram(w, s.pongs[e.i]), w.addr, w.port, e.clock, e.now, e.later)
  }

  /** The origins of the samples a PONG contributes. */
  function NewOrigins(w: World, run: Run, r: Reply, clock: Time): seq<Origin> {
    [Bracket(r.flight.ping.ht, clock)] +
    (if r.flight.ping.pgt.None? || run.prevHost == 0 then []
     else if r.flight.answered then [Bracket(r.flight.ping.pgt.value - w.theta, r.stamp)]
     else [ZeroStamp])
  }

  function Next(w: World, s: Sys, e: Event): Sys
    requires Enabled(w, s, e)
  {
    match e
    case StartRun(session, now, later) =>
      if s.state.Some? then s.(now := later)
      else
        var o := AfterStart(s.state, w.addr, w.port, session, now, later);
        var fresh' := s.(accepted := 0);
        fresh'.(state := o.state, pings := Launched(fresh', o.sent), now := later,
                timerPings := 0, origins := [], runs := s.runs + 1)
    case TickRun(clock, now, later) =>
      var o := AfterTick(s.state, clock, now, later);
      s.(state := o.state, pings := Launched(s, o.sent), now := later,
         timerPings := s.timerPings + (if o.sent.Some? then 1 else 0),
         origins := if o.state.None? then [] else s.origins,
         completions := s.completions + (if o.done.Some? then 1 else 0))
    case AnswerPing(i, sess, stamp) =>
      s.(pings := Remove(s.pings, i), pongs := s.pongs + [Reply(s.pings[i], sess, stamp)], now := stamp)
    case DeliverPong(i, clock, now, later) => Delivered(w, s, i, clock, later, Delivery(w, s, e))
    case LosePing(i) => s.(pings := Remove(s.pings, i))
    case LosePong(i) => s.(pongs := Remove(s.pongs, i))
    case HearStray(buf, addr, port, clock, now, later) =>
      var o := AfterRx(s.state, buf, addr, port, clock, now, later);
      s.(state := o.state, pings := Launched(s, o.sent), now := later,
         completions := s.completions + (if o.done.Some? then 1 else 0))
  }

  /** The system once the i-th PONG has had outcome o. */
  function Delivered(w: World, s: Sys, i: nat, clock: Time, later: Time, o: Outcome): Sys
    requires i < |s.pongs|
  {
    var heard := s.(accepted := s.accepted + 1);
    heard.(state := o.state, pings := Launched(heard, o.sent), pongs := Remove(s.pongs, i), now := later,
           origins := if s.state.None? || o.state.None? then []
                      else s.origins + NewOrigins(w, s.state.value, s.pongs[i], clock),
           completions := s.completions + (if o.done.Some? then 1 else 0))
  }

  function Initial(t: Time): Sys {
    Sys(None, [], [], t, 0, 0, [], 0, 0)
  }

  predicate Legal(w: World, s: Sys, es: seq<Event>)
    decreases |es|
  {
    es == [] || (Enabled(w, s, es[0]) && Legal(w, Next(w, s, es[0]), es[1..]))
  }

  function After(w: World, s: Sys, es: seq<Event>): Sys
    requires Legal(w, s, es)
    decreases |es|
  {
    if es == [] then s else After(w, Next(w, s, es[0]), es[1..])
  }

  // ---- the invariant ---------------------------------------------------------

  predicate ZeroFlight(f: Flight) {
    f.ping.pgt.Some? && !f.answered
  }

  predicate ZeroReply(r: Reply) {
    ZeroFlight(r.flight)
  }

  predicate IsZeroStamp(o: Origin) {
    o.ZeroStamp?
  }

  function ZeroStamps(os: seq<Origin>): nat {
    Count(os, IsZeroStamp)
  }

  /** A flight left at or before now, and a previous stamp it carries as a genuine
      one was taken before the flight left. */
  ghost predicate SoundFlight(w: World, f: Flight, now: int) {
    f.ping.ht <= now && (f.ping.pgt.Some? && f.answered ==> f.ping.pgt.value - w.theta <= f.ping.ht)
  }

  ghost predicate SoundReply(w: World, r: Reply, now: int) {
    SoundFlight(w, r.flight, r.stamp) && r.flight.ping.ht <= r.stamp <= now && InI64(r.stamp + w.theta)
  }

  /** Within half its bracketing interval of theta, up to half a microsecond. */
  ghost predicate SampleOk(w: World, sample: int, o: Origin) {
    o.Bracket? ==>
      o.from <= o.to && -(o.to - o.from) - 1 <= 2 * (sample - w.theta) <= o.to - o.from + 1
  }

  ghost predicate SamplesOk(w: World, samples: seq<int>, os: seq<Origin>) {
    |samples| == |os| && forall i :: 0 <= i < |os| ==> SampleOk(w, samples[i], os[i])
  }

  /** Timer pings the current run may still send without a previous stamp. */
  function ZeroBudget(s: Sys): nat {
    if s.state.Some? && s.accepted == 0 && s.state.value.pingsSent < MAX_PINGS
    then MAX_PINGS - s.state.value.pingsSent else 0
  }

  ghost predicate RunOk(w: World, s: Sys) {
    s.state.Some? ==>
      var run := s.state.value;
      && run.addr == w.addr && run.port == w.port
      && Bounded(s.state)
      && run.prevHost <= s.now
      && run.pingsSent == 1 + s.timerPings + s.accepted
      && s.accepted <= |run.samples|
      && (s.accepted > 0 ==> run.prevGhost - w.theta <= s.now)
      && SamplesOk(w, run.samples, s.origins)
  }

  ghost predicate Inv(w: World, s: Sys) {
    && (forall i :: 0 <= i < |s.pings| ==> SoundFlight(w, s.pings[i], s.now))
    && (forall i :: 0 <= i < |s.pongs| ==> SoundReply(w, s.pongs[i], s.now))
    && RunOk(w, s)
    && (s.state.None? ==> s.origins == [])
    && s.timerPings <= MAX_PINGS - 1
    && s.completions + (if s.state.Some? then 1 else 0) == s.runs
    && Count(s.pings, ZeroFlight) + Count(s.pongs, ZeroReply) + ZeroStamps(s.origins) + ZeroBudget(s)
         <= (MAX_PINGS - 1) * s.runs
  }

  // ---- what one PONG contributes -----------------------------------------------

  /** The two sample formulas, each within its bracket. */
  lemma SampleError(a: int, b: int, mid: int, theta: int)
    requires 0 <= a <= mid <= b
    ensures -(b - a) - 1 <= 2 * (mid + theta - CDiv(b + a, 2) - theta) <= b - a + 1
  {
  }

  lemma StampError(a: int, b: int, mid: int, theta: int)
    requires a <= mid <= b
    ensures -(b - a) - 1 <= 2 * (CDiv(b + theta + (a + theta), 2) - mid - theta) <= b - a + 1
  {
  }

  lemma SamplesAppend(w: World, s: seq<int>, os: seq<Origin>, t: seq<int>, ps: seq<Origin>)
    requires SamplesOk(w, s, os) && SamplesOk(w, t, ps)
    ensures SamplesOk(w, s + t, os + ps)
  {
  }

  /** The samples of a PONG from the session under measurement keep to their origins,
      and the only origin without a bracket is the echo of a ping that carried 0. */
  lemma PongSamples(w: World, run: Run, r: Reply, os: seq<Origin>, clock: Time)
    requires |run.samples| <= SAMPLE_THRESHOLD && SamplesOk(w, run.samples, os)
    requires SoundReply(w, r, clock)
    ensures var pong := Answer(r.flight.ping, r.sess, r.stamp + w.theta);
            && SamplesOk(w, Sampled(run, pong, clock), os + NewOrigins(w, run, r, clock))
            && ZeroStamps(os + NewOrigins(w, run, r, clock))
               <= ZeroStamps(os) + (if ZeroFlight(r.flight) then 1 else 0)
            && |run.samples| < |Sampled(run, pong, clock)| <= |run.samples| + 2
  {
    var pong := Answer(r.flight.ping, r.sess, r.stamp + w.theta);
    var news := NewOrigins(w, run, r, clock);
    SampleError(pong.ht, clock, r.stamp, w.theta);
    var first := [pong.gt - CDiv(clock + pong.ht, 2)];
    assert SamplesOk(w, first, news[..1]);
    var t := first;
    if pong.havePgt && run.prevHost != 0 {
      t := first + [CDiv(pong.gt + pong.pgt, 2) - pong.ht];
      if r.flight.answered {
        StampError(pong.pgt - w.theta, r.stamp, pong.ht, w.theta);
      }
      assert SampleOk(w, t[1], news[1]);
      assert news[1..] == [news[1]];
    }
    assert SamplesOk(w, t, news);
    assert ZeroStamps(news) == (if |news| == 2 && news[1].ZeroStamp? then 1 else 0) by {
      CountOne(news[0], IsZeroStamp);
      if |news| == 1 {
        assert news == [news[0]];
      } else {
        CountOne(news[1], IsZeroStamp);
        CountAppend([news[0]], [news[1]], IsZeroStamp);
        assert news == [news[0]] + [news[1]];
      }
    }
    assert Sampled(run, pong, clock) == run.samples + t;
    SamplesAppend(w, run.samples, os, t, news);
    CountAppend(os, news, IsZeroStamp);
  }

  lemma DeliveredPong(w: World, s: Sys, e: Event)
    requires e.DeliverPong? && Enabled(w, s, e) && RunOk(w, s) && s.state.Some?
    ensures var r := s.pongs[e.i];
            Delivery(w, s, e) == AfterPong(s.state.value, Answer(r.flight.ping, r.sess, r.stamp + w.theta),
                                           e.clock, e.now, e.later)
  {
    var r := s.pongs[e.i];
    PongRoundTrip(r.flight.ping, r.sess, r.stamp + w.theta);
  }

  // ---- preservation --------------------------------------------------------------

  lemma StepTick(w: World, s: Sys, e: Event)
    requires Inv(w, s) && Enabled(w, s, e) && (e.TickRun? || e.StartRun?)
    ensures Inv(w, Next(w, s, e))
  {
    var t := Next(w, s, e);
    if t.pings != s.pings {
      var f := t.pings[|t.pings| - 1];
      assert t.pings == s.pings + [f];
      CountAppend(s.pings, [f], ZeroFlight);
      assert SoundFlight(w, f, t.now);
    }
  }

  lemma StepNetwork(w: World, s: Sys, e: Event)
    requires Inv(w, s) && Enabled(w, s, e) && (e.AnswerPing? || e.LosePing? || e.LosePong?)
    ensures Inv(w, Next(w, s, e))
  {
    hide Count, SamplesOk, Bounded, Delivery, Datagram, ZeroStamps;
    match e
    case AnswerPing(i, sess, stamp) =>
      CountRemove(s.pings, i, ZeroFlight);
      CountAppend(s.pongs, [Reply(s.pings[i], sess, stamp)], ZeroReply);
      CountOne(Reply(s.pings[i], sess, stamp), ZeroReply);
    case LosePing(i) => CountRemove(s.pings, i, ZeroFlight);
    case LosePong(i) => CountRemove(s.pongs, i, ZeroReply);
  }

  /** A datagram from any other address or port, or from the target but not a PONG,
      whatever it says and whenever it comes: no sample, no ping, no completion. */
  lemma StraysAreIgnored(w: World, s: Sys, e: Event)
    requires RunOk(w, s) && Enabled(w, s, e) && e.HearStray?
    ensures AfterRx(s.state, e.buf, e.addr, e.port, e.clock, e.now, e.later) == Outcome(s.state, None, None)
    ensures Next(w, s, e) == s.(now := e.later)
  {
    hide Walk;
    assert |e.buf| >= 9 ==> e.buf[..9] == e.buf[..8] + [e.buf[8]];
  }

  lemma StepStray(w: World, s: Sys, e: Event)
    requires Inv(w, s) && Enabled(w, s, e) && e.HearStray?
    ensures Inv(w, Next(w, s, e))
  {
    StraysAreIgnored(w, s, e);
    hide Next, Count, SamplesOk, Enabled;
  }

  /** What a delivered PONG can lead to, without the arithmetic. */
  ghost predicate PongOutcome(run: Run, r: Reply, gt: int, samples: seq<int>, now: Time, o: Outcome) {
    && (o.done.Some? <==> o.state.None?)
    && (o.state.None? ==> o.sent.None?)
    && (o.state.Some? ==>
          && InI64(gt) && |samples| <= SAMPLE_THRESHOLD
          && o.state == Some(run.(samples := samples, prevGhost := gt, prevHost := now,
                                  pingsSent := run.pingsSent + 1, nextSend := o.state.value.nextSend))
          && o.sent == Some(Ping(now, if run.pingsSent > 0 then Some(gt) else None)))
  }

  lemma PongOutcomes(run: Run, r: Reply, pong: PongCtx, clock: Time, now: Time, later: Time)
    ensures PongOutcome(run, r, pong.gt, Sampled(run, pong, clock), now, AfterPong(run, pong, clock, now, later))
  {
    hide Sampled, Median.MedianOf;
  }

  lemma DeliverKeepsInv(w: World, s: Sys, i: nat, clock: Time, now: Time, later: Time, samples: seq<int>, o: Outcome)
    requires Inv(w, s) && i < |s.pongs| && s.state.Some? && s.now <= clock <= now <= later
    requires var r := s.pongs[i];
             && PongOutcome(s.state.value, r, r.stamp + w.theta, samples, now, o)
             && |s.state.value.samples| < |samples|
             && SamplesOk(w, samples, s.origins + NewOrigins(w, s.state.value, r, clock))
             && ZeroStamps(s.origins + NewOrigins(w, s.state.value, r, clock))
                <= ZeroStamps(s.origins) + (if ZeroFlight(r.flight) then 1 else 0)
    ensures Inv(w, Delivered(w, s, i, clock, later, o))
  {
    var t := Delivered(w, s, i, clock, later, o);
    CountRemove(s.pongs, i, ZeroReply);
    if t.state.Some? {
      var f := Flight(o.sent.value, true);
      assert t.pings == s.pings + [f];
      CountAppend(s.pings, [f], ZeroFlight);
      assert SoundFlight(w, f, t.now);
    }
  }

  lemma StepDeliver(w: World, s: Sys, e: Event)
    requires Inv(w, s) && Enabled(w, s, e) && e.DeliverPong?
    ensures Inv(w, Next(w, s, e))
  {
    var r := s.pongs[e.i];
    if s.state.Some? {
      var pong := Answer(r.flight.ping, r.sess, r.stamp + w.theta);
      DeliveredPong(w, s, e);
      PongOutcomes(s.state.value, r, pong, e.clock, e.now, e.later);
      PongSamples(w, s.state.value, r, s.origins, e.clock);
      hide Delivery, AfterPong, Sampled, SamplesOk, Delivered;
      DeliverKeepsInv(w, s, e.i, e.clock, e.now, e.later, Sampled(s.state.value, pong, e.clock), Delivery(w, s, e));
    } else {
      CountRemove(s.pongs, e.i, ZeroReply);
    }
  }

  lemma {:induction false} RunKeepsInv(w: World, s: Sys, es: seq<Event>)
    requires Inv(w, s) && Legal(w, s, es)
    ensures Inv(w, After(w, s, es))
    decreases |es|
  {
    if es != [] {
      match es[0] {
        case StartRun(_, _, _) => StepTick(w, s, es[0]);
        case TickRun(_, _, _) => StepTick(w, s, es[0]);
        case DeliverPong(_, _, _, _) => StepDeliver(w, s, es[0]);
        case HearStray(_, _, _, _, _, _) => StepStray(w, s, es[0]);
        case _ => StepNetwork(w, s, es[0]);
      }
      RunKeepsInv(w, Next(w, s, es[0]), es[1..]);
    }
  }

  // ---- the theorems ------------------------------------------------------------------

  /** Over every run of the system: a measurement in progress holds at most 100
      samples, has sent at most 4 pings from its timer and accepted at most one PONG
      per sample, and every start is either still in progress or has called its
      completion exactly once. */
  lemma RunsAreFinite(w: World, t: Time, es: seq<Event>)
    requires Legal(w, Initial(t), es)
    ensures var s := After(w, Initial(t), es);
            && s.timerPings <= 4
            && s.completions + (if s.state.Some? then 1 else 0) == s.runs
            && (s.state.Some? ==> && s.accepted <= |s.state.value.samples| <= 100
                                  && s.state.value.pingsSent == 1 + s.timerPings + s.accepted)
  {
    RunKeepsInv(w, Initial(t), es);
  }

  /** The widest bracketing interval among the origins. */
  function Widest(os: seq<Origin>): (m: nat)
    ensures forall i :: 0 <= i < |os| && os[i].Bracket? ==> os[i].to - os[i].from <= m
  {
    if os == [] then 0
    else
      var rest := Widest(os[1..]);
      if os[0].Bracket? && os[0].to - os[0].from > rest then os[0].to - os[0].from else rest
  }

  lemma {:induction false} BracketedSamplesAreClose(w: World, samples: seq<int>, os: seq<Origin>, m: nat)
    requires SamplesOk(w, samples, os)
    requires forall i :: 0 <= i < |os| && os[i].Bracket? ==> os[i].to - os[i].from <= m
    ensures Median.Outliers(samples, w.theta - (m + 1) / 2, w.theta + (m + 1) / 2) <= ZeroStamps(os)
    decreases |os|
  {
    if os != [] {
      assert SampleOk(w, samples[0], os[0]);
      BracketedSamplesAreClose(w, samples[1..], os[1..], m);
    }
  }

  /** The measurement that PONG e completes in state s is accurate. */
  ghost predicate Accurate(w: World, s: Sys, e: Event)
    requires e.DeliverPong? && Enabled(w, s, e)
  {
    s.state.Some? && Delivery(w, s, e).done.Some? && Delivery(w, s, e).done.value.Measured? &&
    var r := s.pongs[e.i];
    var samples := Sampled(s.state.value, Answer(r.flight.ping, r.sess, r.stamp + w.theta), e.clock);
    var os := s.origins + NewOrigins(w, s.state.value, r, e.clock);
    var intercept := Delivery(w, s, e).done.value.intercept;
    && 101 <= |samples| <= 102
    && SamplesOk(w, samples, os)
    && ZeroStamps(os) <= 4 * s.runs
    && (s.runs <= 12 ==> 2 * ZeroStamps(os) < |samples|)
    && (2 * ZeroStamps(os) < |samples| ==>
          -(Widest(os) as int) - 1 <= 2 * (intercept - w.theta) <= Widest(os) + 1)
  }

  /** Offset accuracy. When a PONG completes a measurement successfully there are 101
      or 102 samples; all but the zero-stamp ones are within half their bracketing
      interval plus half a microsecond of theta; at most four per run started are
      zero-stamp samples (so at most four in a first run, the rest being echoes of
      earlier runs still in flight); and while they are a minority, which twelve runs
      cannot change, the reported intercept is within half the widest bracketing
      interval plus half a microsecond of theta. */
  lemma MedianIsAccurate(w: World, t: Time, es: seq<Event>, e: Event)
    requires Legal(w, Initial(t), es) && e.DeliverPong?
    requires Enabled(w, After(w, Initial(t), es), e)
    requires Delivery(w, After(w, Initial(t), es), e).done.Some?
    requires Delivery(w, After(w, Initial(t), es), e).done.value.Measured?
    ensures Accurate(w, After(w, Initial(t), es), e)
  {
    RunKeepsInv(w, Initial(t), es);
    SuccessIsAccurate(w, After(w, Initial(t), es), e);
  }

  lemma SuccessIsAccurate(w: World, s: Sys, e: Event)
    requires Inv(w, s) && e.DeliverPong? && Enabled(w, s, e)
    requires Delivery(w, s, e).done.Some? && Delivery(w, s, e).done.value.Measured?
    ensures Accurate(w, s, e)
  {
    hide Delivery, Datagram, Sampled, SamplesOk, AfterPong, Median.MedianOf, Count, Inv, NewOrigins;
    IdleIgnoresPongs(w, s, e);
    var r := s.pongs[e.i];
    RunOkOfInv(w, s);
    var pong := Answer(r.flight.ping, r.sess, r.stamp + w.theta);
    DeliveredPong(w, s, e);
    AfterPongMeasured(s.state.value, pong, e.clock, e.now, e.later);
    DeliveredSamples(w, s, e);
    hide RunOk;
    var samples := Sampled(s.state.value, pong, e.clock);
    var os := s.origins + NewOrigins(w, s.state.value, r, e.clock);
    if 2 * ZeroStamps(os) < |samples| {
      MajorityBracketed(w, samples, os);
    }
  }

  lemma RunOkOfInv(w: World, s: Sys)
    requires Inv(w, s)
    ensures RunOk(w, s)
  {
  }

  lemma IdleIgnoresPongs(w: World, s: Sys, e: Event)
    requires e.DeliverPong? && Enabled(w, s, e)
    ensures s.state.None? ==> Delivery(w, s, e) == Outcome(None, None, None)
  {
  }

  lemma DeliveredSamples(w: World, s: Sys, e: Event)
    requires Inv(w, s) && e.DeliverPong? && Enabled(w, s, e) && s.state.Some?
    ensures var r := s.pongs[e.i];
            var samples := Sampled(s.state.value, Answer(r.flight.ping, r.sess, r.stamp + w.theta), e.clock);
            var os := s.origins + NewOrigins(w, s.state.value, r, e.clock);
            && SamplesOk(w, samples, os) && |samples| <= 102 && ZeroStamps(os) <= 4 * s.runs
  {
    PongSamples(w, s.state.value, s.pongs[e.i], s.origins, e.clock);
    CountRemove(s.pongs, e.i, ZeroReply);
    hide Sampled, SamplesOk, NewOrigins, Count;
  }

  lemma AfterPongMeasured(run: Run, pong: PongCtx, clock: Time, now: Time, later: Time)
    requires var o := AfterPong(run, pong, clock, now, later); o.done.Some? && o.done.value.Measured?
    ensures |Sampled(run, pong, clock)| > SAMPLE_THRESHOLD
    ensures AfterPong(run, pong, clock, now, later).done
         == Some(Measured(Median.MedianOf(Sampled(run, pong, clock))))
  {
    hide Sampled, Median.MedianOf;
  }

  lemma MajorityBracketed(w: World, samples: seq<int>, os: seq<Origin>)
    requires SamplesOk(w, samples, os) && 2 * ZeroStamps(os) < |samples|
    ensures -(Widest(os) as int) - 1 <= 2 * (Median.MedianOf(samples) - w.theta) <= Widest(os) + 1
  {
    var m := Widest(os);
    BracketedSamplesAreClose(w, samples, os, m);
    Median.MedianIgnoresMinority(samples, w.theta - (m + 1) / 2, w.theta + (m + 1) / 2);
  }
}
