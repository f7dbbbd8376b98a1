/** How far the zero stamps of OffsetAccuracy can go. PONGs of runs that timed out are
    still accepted by a later one, so a thirteenth start can complete with as many
    zero-stamp samples as genuine ones, and report an offset that is far off. */
module StaleEchoes {
  import opened Bytes
  import opened SeqTools
  import opened Measurement
  import opened OffsetAccuracy
  import Median

  // ---- reachability ------------------------------------------------------------------

  ghost predicate Reachable(w: World, s: Sys) {
    exists t: Time, es: seq<Event> :: Legal(w, Initial(t), es) && After(w, Initial(t), es) == s
  }

  lemma {:induction false} LegalSnoc(w: World, s: Sys, es: seq<Event>, e: Event)
    requires Legal(w, s, es) && Enabled(w, After(w, s, es), e)
    ensures Legal(w, s, es + [e]) && After(w, s, es + [e]) == Next(w, After(w, s, es), e)
    decreases |es|
  {
    hide Next, Enabled;
    if es == [] {
      assert [] + [e] == [e] && [e][1..] == [];
      assert Legal(w, Next(w, s, e), []) && After(w, Next(w, s, e), []) == Next(w, s, e);
    } else {
      LegalSnoc(w, Next(w, s, es[0]), es[1..], e);
      assert (es + [e])[1..] == es[1..] + [e];
    }
  }

  lemma ReachNext(w: World, s: Sys, e: Event)
    requires Reachable(w, s) && Enabled(w, s, e)
    ensures Reachable(w, Next(w, s, e))
  {
    hide Next, Enabled;
    var t: Time, es: seq<Event> :| Legal(w, Initial(t), es) && After(w, Initial(t), es) == s;
    LegalSnoc(w, Initial(t), es, e);
  }

  lemma ReachInv(w: World, s: Sys)
    requires Reachable(w, s)
    ensures Inv(w, s)
  {
    hide Inv;
    var t: Time, es: seq<Event> :| Legal(w, Initial(t), es) && After(w, Initial(t), es) == s;
    InitialInv(w, t);
    RunKeepsInv(w, Initial(t), es);
  }

  lemma InitialInv(w: World, t: Time)
    ensures Inv(w, Initial(t))
  {
  }

  // ---- a stock of zero stamps ----------------------------------------------------------

  const TURN := 5 * PING_INTERVAL_US

  /** A PONG from session S whose ping the timer sent before any PONG. */
  ghost predicate Stale(r: Reply, now: int) {
    && r.sess == ZERO_ID && !r.flight.answered && r.flight.ping.pgt == Some(0)
    && r.flight.ping.ht == r.stamp <= now
  }

  ghost predicate Stock(s: Sys, n: nat) {
    |s.pongs| == n && s.pings == [] && forall i :: 0 <= i < n ==> Stale(s.pongs[i], s.now)
  }

  /** Idle after n runs that all timed out, at a known time, with 4n stale PONGs in flight. */
  ghost predicate Idle(s: Sys, n: nat) {
    s.state.None? && s.runs == n && s.now == TURN * n && Stock(s, 4 * n)
  }

  /** In the (n + 1)-st run, with k timer pings sent and all echoed. */
  ghost predicate Waiting(w: World, s: Sys, n: nat, k: nat) {
    && s.runs == n + 1 && s.now == TURN * n + PING_INTERVAL_US * k && Stock(s, 4 * n + k)
    && s.accepted == 0 && s.origins == []
    && s.state == Some(Run(w.addr, w.port, ZERO_ID, 1 + k, s.now + PING_INTERVAL_US, 0, s.now, []))
  }

  lemma Start(w: World, s: Sys, n: nat) returns (t: Sys)
    requires Reachable(w, s) && Idle(s, n)
    ensures Reachable(w, t) && Waiting(w, t, n, 0)
  {
    var started := Next(w, s, StartRun(ZERO_ID, s.now, s.now));
    ReachNext(w, s, StartRun(ZERO_ID, s.now, s.now));
    assert started.pings == [] + [started.pings[0]];
    t := Next(w, started, LosePing(0));
    ReachNext(w, started, LosePing(0));
  }

  // far enough from zero for a zero stamp to matter
  const FAR := 0x100_0000_0000

  lemma Resent(w: World, s: Sys, n: nat, k: nat, c: Time)
    requires n <= 100 && k < 4 && Waiting(w, s, n, k) && c == s.now + PING_INTERVAL_US
    ensures var t := Next(w, s, TickRun(c, c, c));
            && t.pings == [Flight(Ping(c, Some(0)), false)] && t.pongs == s.pongs && t.now == c
            && t.runs == s.runs && t.accepted == 0 && t.origins == []
            && t.state == Some(Run(w.addr, w.port, ZERO_ID, 2 + k, c + PING_INTERVAL_US, 0, c, []))
  {
  }

  lemma Resend(w: World, s: Sys, n: nat, k: nat) returns (t: Sys)
    requires w.theta == FAR && n <= 100 && k < 4 && Reachable(w, s) && Waiting(w, s, n, k)
    ensures Reachable(w, t) && Waiting(w, t, n, k + 1)
  {
    hide Reachable, AfterTick;
    var c: Time := s.now + PING_INTERVAL_US;
    var sent := Next(w, s, TickRun(c, c, c));
    Resent(w, s, n, k, c);
    ReachNext(w, s, TickRun(c, c, c));
    ReachNext(w, sent, AnswerPing(0, ZERO_ID, c));
    t := Next(w, sent, AnswerPing(0, ZERO_ID, c));
  }

  /** The n-th start, from boot. */
  lemma {:induction false} Stocked(w: World, n: nat) returns (t: Sys)
    requires w.theta == FAR && n <= 100
    ensures Reachable(w, t) && Waiting(w, t, n, 4)
  {
    var s := Initial(0);
    if n == 0 {
      assert Legal(w, s, []) && After(w, s, []) == s;
    } else {
      s := Stocked(w, n - 1);
      var c: Time := s.now + PING_INTERVAL_US;
      ReachNext(w, s, TickRun(c, c, c));
      s := Next(w, s, TickRun(c, c, c));
    }
    hide Reachable;
    t := Start(w, s, n);
    t := Resend(w, t, n, 0);
    t := Resend(w, t, n, 1);
    t := Resend(w, t, n, 2);
    t := Resend(w, t, n, 3);
  }

  // ---- using it up ---------------------------------------------------------------------

  /** The samples are near FAR or near half of it, at most j of them near FAR. */
  ghost predicate Split(samples: seq<int>, j: nat) {
    && (forall i :: 0 <= i < |samples| ==> 0 <= samples[i] <= FAR)
    && Median.Outliers(samples, 0, FAR / 2) <= j
  }

  /** The run has accepted j stale PONGs, each with one zero stamp; m are left. */
  ghost predicate Firing(w: World, s: Sys, n: nat, j: nat, m: nat) {
    && s.state.Some? && s.runs == n && 0 < s.now <= 101 * TURN && s.accepted == j
    && s.state.value.session == ZERO_ID && s.state.value.prevHost > 0
    && |s.pongs| == m && (forall i :: 0 <= i < m ==> Stale(s.pongs[i], s.now))
    && |s.state.value.samples| == 2 * j && Split(s.state.value.samples, j)
    && ZeroStamps(s.origins) == j && |s.origins| == 2 * j && Widest(s.origins) <= s.now
  }

  lemma Loaded(w: World, s: Sys, n: nat)
    requires n <= 100 && Waiting(w, s, n, 4)
    ensures Firing(w, s, n + 1, 0, 4 * (n + 1))
  {
  }

  lemma {:induction false} WidestAppend(os: seq<Origin>, ps: seq<Origin>, m: nat)
    requires Widest(os) <= m && Widest(ps) <= m
    ensures Widest(os + ps) <= m
    decreases |os|
  {
    if os == [] {
      assert os + ps == ps;
    } else {
      WidestAppend(os[1..], ps, m);
      assert (os + ps)[1..] == os[1..] + ps;
    }
  }

  lemma NewPair(w: World, run: Run, r: Reply, clock: Time)
    requires w.theta == FAR && Stale(r, clock) && clock <= 101 * TURN && run.prevHost > 0
    requires |run.samples| <= 100
    ensures var news := NewOrigins(w, run, r, clock);
            && |news| == 2 && ZeroStamps(news) == 1 && Widest(news) <= clock
    ensures var more := Sampled(run, Answer(r.flight.ping, r.sess, r.stamp + w.theta), clock);
            && |more| == |run.samples| + 2 && more[..|run.samples|] == run.samples
            && 0 <= more[|run.samples|] <= FAR && 0 <= more[|run.samples| + 1] <= FAR / 2
  {
    var news := NewOrigins(w, run, r, clock);
    assert news == [Bracket(r.flight.ping.ht, clock)] + [ZeroStamp];
    CountAppend([Bracket(r.flight.ping.ht, clock)], [ZeroStamp], IsZeroStamp);
    CountOne(Bracket(r.flight.ping.ht, clock), IsZeroStamp);
    CountOne(ZeroStamp, IsZeroStamp);
    assert Widest([ZeroStamp]) == 0;
    assert news[1..] == [ZeroStamp];
  }

  lemma SplitMore(samples: seq<int>, more: seq<int>, j: nat)
    requires Split(samples, j) && |more| == |samples| + 2 && more[..|samples|] == samples
    requires 0 <= more[|samples|] <= FAR && 0 <= more[|samples| + 1] <= FAR / 2
    ensures Split(more, j + 1)
  {
    var n := |samples|;
    assert more == samples + [more[n], more[n + 1]];
    Median.OutliersAppend(samples, [more[n], more[n + 1]], 0, FAR / 2);
    assert [more[n], more[n + 1]][1..] == [more[n + 1]];
    forall i | 0 <= i < |more|
      ensures 0 <= more[i] <= FAR
    {
      if i < n {
        assert more[i] == samples[i];
      }
    }
  }

  /** What the echo at the head of the stock does to the run. */
  lemma Echoed(w: World, s: Sys, n: nat, j: nat, m: nat)
    requires w.theta == FAR && Inv(w, s) && Firing(w, s, n, j, m) && j <= 50 && m > 0
    ensures var e, r, run := DeliverPong(0, s.now, s.now, s.now), s.pongs[0], s.state.value;
            var more := Sampled(run, Answer(r.flight.ping, r.sess, r.stamp + w.theta), s.now);
            && Enabled(w, s, e) && |more| == 2 * (j + 1) && Split(more, j + 1)
            && Delivery(w, s, e) == AfterPong(run, Answer(r.flight.ping, r.sess, r.stamp + w.theta), s.now, s.now, s.now)
            && (if j < 50
                then Delivery(w, s, e) == AfterPing(run.(samples := more, prevGhost := r.stamp + w.theta), s.now, s.now)
                else Delivery(w, s, e) == Outcome(None, None, Some(Measured(Median.MedianOf(more)))))
  {
    hide Inv, Delivery, Sampled, Median.MedianOf, Median.Outliers, NewOrigins, Split, SamplesOk;
    var e := DeliverPong(0, s.now, s.now, s.now);
    var r, run := s.pongs[0], s.state.value;
    RunOkOfInv(w, s);
    DeliveredPong(w, s, e);
    NewPair(w, run, r, s.now);
    SplitMore(run.samples, Sampled(run, Answer(r.flight.ping, r.sess, r.stamp + w.theta), s.now), j);
  }

  /** ... and to what is known of the origins of its samples. */
  lemma Traced(w: World, s: Sys, n: nat, j: nat, m: nat)
    requires w.theta == FAR && Firing(w, s, n, j, m) && j <= 50 && m > 0
    ensures var os := s.origins + NewOrigins(w, s.state.value, s.pongs[0], s.now);
            ZeroStamps(os) == j + 1 && |os| == 2 * (j + 1) && Widest(os) <= s.now
  {
    hide Sampled, NewOrigins, Median.Outliers, Count, Widest;
    NewPair(w, s.state.value, s.pongs[0], s.now);
    var news := NewOrigins(w, s.state.value, s.pongs[0], s.now);
    CountAppend(s.origins, news, IsZeroStamp);
    WidestAppend(s.origins, news, s.now);
  }

  lemma Fire(w: World, s: Sys, n: nat, j: nat, m: nat) returns (t: Sys)
    requires w.theta == FAR && Reachable(w, s) && Firing(w, s, n, j, m) && j < 50 && m > 0
    ensures Reachable(w, t) && Firing(w, t, n, j + 1, m - 1)
  {
    hide Inv, Delivery, Sampled, NewOrigins, ZeroStamps, Widest, Split, Reachable;
    var e := DeliverPong(0, s.now, s.now, s.now);
    ReachInv(w, s);
    Echoed(w, s, n, j, m);
    Traced(w, s, n, j, m);
    ReachNext(w, s, e);
    t := Next(w, s, e);
  }

  lemma {:induction false} Burst(w: World, n: nat, j: nat) returns (t: Sys)
    requires w.theta == FAR && 1 <= n <= 100 && j <= 50 && j <= 4 * n
    ensures Reachable(w, t) && Firing(w, t, n, j, 4 * n - j)
    decreases j
  {
    hide Reachable, Firing, Waiting;
    if j == 0 {
      t := Stocked(w, n - 1);
      Loaded(w, t, n - 1);
    } else {
      t := Burst(w, n, j - 1);
      t := Fire(w, t, n, j - 1, 4 * n - (j - 1));
    }
  }

  // ---- the theorems --------------------------------------------------------------------

  /** The count of at most four zero stamps per run started is attained: the n-th run can
      hold any number of them up to 4n and up to half its samples. */
  lemma ZeroStampsReachable(w: World, n: nat, j: nat) returns (t: Sys)
    requires w.theta == FAR && 1 <= n <= 100 && j <= 50 && j <= 4 * n
    ensures Reachable(w, t) && t.runs == n && t.state.Some? && ZeroStamps(t.origins) == j
  {
    hide Reachable, ZeroStamps;
    t := Burst(w, n, j);
  }

  /** A second run that holds eight, more than its own four. */
  lemma EightInOneRun(w: World) returns (t: Sys)
    requires w.theta == FAR
    ensures Reachable(w, t) && t.runs == 2 && t.state.Some? && ZeroStamps(t.origins) == 8
  {
    hide *;
    t := ZeroStampsReachable(w, 2, 8);
  }

  ghost predicate Succeeds(w: World, s: Sys, e: Event) {
    e.DeliverPong? && Enabled(w, s, e)
    && Delivery(w, s, e).done.Some? && Delivery(w, s, e).done.value.Measured? && s.state.Some?
  }

  /** The reported intercept is within half the widest bracket plus half a microsecond. */
  ghost predicate Close(w: World, s: Sys, e: Event)
    requires Succeeds(w, s, e)
  {
    var widest := Widest(s.origins + NewOrigins(w, s.state.value, s.pongs[e.i], e.clock));
    -(widest as int) - 1 <= 2 * (Delivery(w, s, e).done.value.intercept - w.theta) <= widest + 1
  }

  /** Every successful measurement of every history with at most n starts is close. */
  ghost predicate Safe(n: nat) {
    forall w: World, s: Sys, e: Event :: Reachable(w, s) && s.runs <= n && Succeeds(w, s, e) ==> Close(w, s, e)
  }

  lemma TwelveAreSafe(w: World, s: Sys, e: Event)
    requires Reachable(w, s) && s.runs <= 12 && Succeeds(w, s, e)
    ensures Close(w, s, e)
  {
    hide Inv, Delivery, NewOrigins, Sampled, Widest, Reachable, SamplesOk, ZeroStamps;
    ReachInv(w, s);
    SuccessIsAccurate(w, s, e);
  }

  /** With half the samples near FAR / 2 the median of an even number is not near FAR. */
  lemma HalfIsEnough(samples: seq<int>, h: nat)
    requires h > 0 && |samples| == 2 * h && Split(samples, h)
    ensures Median.MedianOf(samples) <= (FAR / 2 + FAR) / 2
  {
    var t := Median.Sort(samples);
    Median.SortSorts(samples);
    Median.OutliersSort(samples, 0, FAR / 2);
    Median.SameElements(t, samples);
    Median.RankBelow(t, h - 1, 0, FAR / 2);
    assert t[h] in samples && t[h - 1] in samples;
  }

  /** Thirteen starts, twelve of which time out, and a success that is far off. */
  lemma ThirteenthRun(w: World) returns (s: Sys, e: Event)
    requires w.theta == FAR
    ensures Reachable(w, s) && s.runs == 13 && Succeeds(w, s, e) && !Close(w, s, e)
    ensures 4 * (w.theta - Delivery(w, s, e).done.value.intercept) >= w.theta
  {
    hide Inv, Delivery, Sampled, NewOrigins, ZeroStamps, Widest, Split, Reachable, Median.MedianOf;
    s := Burst(w, 13, 50);
    e := DeliverPong(0, s.now, s.now, s.now);
    ReachInv(w, s);
    Echoed(w, s, 13, 50, 2);
    Traced(w, s, 13, 50, 2);
    var r, run := s.pongs[0], s.state.value;
    HalfIsEnough(Sampled(run, Answer(r.flight.ping, r.sess, r.stamp + w.theta), s.now), 51);
  }

  /** The bound on the error holds over all histories of up to n starts if and only if
      n is at most twelve. */
  lemma SafeIff(n: nat)
    ensures Safe(n) <==> n <= 12
  {
    hide Reachable, Succeeds, Close;
    if n <= 12 {
      forall w: World, s: Sys, e: Event | Reachable(w, s) && s.runs <= n && Succeeds(w, s, e)
        ensures Close(w, s, e)
      {
        TwelveAreSafe(w, s, e);
      }
    } else {
      var w := World(0, 0, FAR);
      var s, e := ThirteenthRun(w);
      assert !Close(w, s, e);
    }
  }
}
