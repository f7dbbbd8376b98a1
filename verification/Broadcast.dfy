/** The ALIVE broadcast schedule over whole runs of link_tick and
    link_broadcast_alive_now. */
module Broadcast {
  import opened Link

  /** A call of link_broadcast_alive_now, or of link_tick, which reads the clock again
      once an ALIVE is out. */
  datatype Event = Request(now: nat) | Tick(now: nat, stamp: nat)

  /** An ALIVE: the clock its tick read, and the stamp kept of it. */
  datatype Alive = Alive(now: nat, stamp: nat)

  /** clock is the latest time read, ticked the one the last tick began with, and requested
      whether a request came since the last ALIVE. */
  datatype Trace = Trace(sched: Schedule, alives: seq<Alive>, clock: nat, ticked: nat, requested: bool)

  /** Right after link_init at host time t. */
  function Booted(t: nat): Trace {
    Trace(Schedule(0, t, true), [], t, t, true)
  }

  /** The clock does not run backwards; ticks are at most delta apart. */
  predicate Enabled(tr: Trace, e: Event, delta: nat) {
    && tr.clock <= e.now
    && tr.sched.last <= e.now
    && (e.Tick? ==> e.now <= e.stamp && e.now <= tr.ticked + delta)
  }

  function Next(tr: Trace, e: Event, delta: nat): Trace
    requires Enabled(tr, e, delta)
  {
    match e
    case Request(now) => tr.(sched := Requested(tr.sched, now), clock := now, requested := true)
    case Tick(now, stamp) =>
      var (sched, sent) := AfterTick(tr.sched, now, stamp);
      tr.(sched := sched, alives := if sent then tr.alives + [Alive(now, stamp)] else tr.alives,
          clock := stamp, ticked := now, requested := tr.requested && !sent)
  }

  predicate Legal(tr: Trace, es: seq<Event>, delta: nat)
    decreases |es|
  {
    es == [] || (Enabled(tr, es[0], delta) && Legal(Next(tr, es[0], delta), es[1..], delta))
  }

  function After(tr: Trace, es: seq<Event>, delta: nat): Trace
    requires Legal(tr, es, delta)
    decreases |es|
  {
    if es == [] then tr else After(Next(tr, es[0], delta), es[1..], delta)
  }

  /** The ALIVEs so far are spaced as the protocol wants, and the schedule is such
      that the next one will be. */
  ghost predicate Spaced(tr: Trace, delta: nat) {
    && (forall k :: 1 <= k < |tr.alives| ==>
          MIN_BCAST_US <= tr.alives[k].now - tr.alives[k - 1].stamp <= BCAST_US + delta)
    && tr.sched.last <= tr.clock
    && tr.sched.dirty == tr.requested
    && (tr.alives == [] ==> tr.sched.last == 0)
    && (tr.alives != [] ==>
          && tr.sched.last == tr.alives[|tr.alives| - 1].stamp
          && tr.ticked <= tr.sched.last + BCAST_US)
    && (!tr.requested ==> tr.alives != [] && tr.sched.next == tr.sched.last + BCAST_US)
  }

  lemma NextKeepsSpaced(tr: Trace, e: Event, delta: nat)
    requires Spaced(tr, delta) && Enabled(tr, e, delta)
    ensures Spaced(Next(tr, e, delta), delta)
  {
    var next := Next(tr, e, delta);
    forall k | 1 <= k < |next.alives|
      ensures MIN_BCAST_US <= next.alives[k].now - next.alives[k - 1].stamp <= BCAST_US + delta
    {
      if k < |tr.alives| {
        assert next.alives[k] == tr.alives[k] && next.alives[k - 1] == tr.alives[k - 1];
      }
    }
  }

  lemma {:induction false} RunKeepsSpaced(tr: Trace, es: seq<Event>, delta: nat)
    requires Spaced(tr, delta) && Legal(tr, es, delta)
    ensures Spaced(After(tr, es, delta), delta)
    decreases |es|
  {
    if es != [] {
      NextKeepsSpaced(tr, es[0], delta);
      RunKeepsSpaced(Next(tr, es[0], delta), es[1..], delta);
    }
  }

  /** Over every run from boot whose ticks are at most delta apart: consecutive ALIVEs
      are at least 50 ms and at most 250 ms + delta apart, and once an ALIVE has gone
      out no tick begins later than 250 ms + delta after it without another. */
  lemma AlivesAreSpaced(t: nat, es: seq<Event>, delta: nat)
    requires Legal(Booted(t), es, delta)
    ensures var tr := After(Booted(t), es, delta);
            && (forall k :: 1 <= k < |tr.alives| ==>
                  50_000 <= tr.alives[k].now - tr.alives[k - 1].stamp <= 250_000 + delta)
            && (tr.alives != [] ==> tr.ticked <= tr.alives[|tr.alives| - 1].stamp + 250_000)
  {
    RunKeepsSpaced(Booted(t), es, delta);
  }

  /** After every run from boot, a state change not yet announced is broadcast by
      exactly the ticks that come at least 50 ms after the last ALIVE (after host
      time 0 when there was none), so by the first such tick. */
  lemma ChangeIsBroadcast(t: nat, es: seq<Event>, delta: nat, now: nat, stamp: nat)
    requires Legal(Booted(t), es, delta)
    requires Enabled(After(Booted(t), es, delta), Tick(now, stamp), delta)
    requires After(Booted(t), es, delta).requested
    ensures var tr := After(Booted(t), es, delta);
            var last := if tr.alives == [] then 0 else tr.alives[|tr.alives| - 1].stamp;
            AfterTick(tr.sched, now, stamp).1 <==> now - last >= 50_000
  {
    RunKeepsSpaced(Booted(t), es, delta);
  }

  /** With nothing to announce, a tick sends exactly when 250 ms have passed since the last
      ALIVE, not sooner. */
  lemma QuietTicks(t: nat, es: seq<Event>, delta: nat, now: nat, stamp: nat)
    requires Legal(Booted(t), es, delta)
    requires Enabled(After(Booted(t), es, delta), Tick(now, stamp), delta)
    requires !After(Booted(t), es, delta).requested
    ensures var tr := After(Booted(t), es, delta);
            && tr.alives != []
            && (AfterTick(tr.sched, now, stamp).1 <==> now - tr.alives[|tr.alives| - 1].stamp >= 250_000)
  {
    RunKeepsSpaced(Booted(t), es, delta);
  }

  /** A request is pending from the moment it is made until an ALIVE goes out. */
  lemma PendingUntilAlive(tr: Trace, e: Event, delta: nat)
    requires Enabled(tr, e, delta)
    ensures var next := Next(tr, e, delta);
            next.requested <==> e.Request? || (tr.requested && next.alives == tr.alives)
  {
  }
}
