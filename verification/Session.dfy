/** session.c: which session a node measures, and when it leaves its own for it. */
module Session {
  import opened Bytes
  import opened SeqTools
  import opened Link
  import opened Measurement

  const EPS_US := 500_000
  const REMEASURE_US := 30_000_000

  /** What the supervisor reads and writes: its own variables and those of link.c and
      the ghost clock. */
  datatype Sup = Sup(selfId: LinkId, session: LinkId, intercept: int, target: LinkId, lastRemeasure: nat,
                     peers: seq<Peer>, timeline: Timeline, startstop: StartStop)

  /** A call of measurement_start. */
  datatype Launch = Launch(addr: u32, port: u16, session: LinkId)

  function InSession(session: LinkId): Peer -> bool {
    (p: Peer) => p.inUse && p.sessionId == session
  }

  function IsFounder(session: LinkId): Peer -> bool {
    (p: Peer) => p.inUse && p.sessionId == session && p.nodeId == session
  }

  function IsMeasured(session: LinkId): Peer -> bool {
    (p: Peer) => p.inUse && p.measured && p.sessionId == session
  }

  /** find_founder: the founder of a session, else any peer in it, else |peers|. */
  function FounderSlot(peers: seq<Peer>, session: LinkId): (i: nat)
    ensures i <= |peers|
    ensures i < |peers| ==> InSession(session)(peers[i])
    ensures i == |peers| ==> forall j :: 0 <= j < |peers| ==> !InSession(session)(peers[j])
    ensures forall j :: 0 <= j < |peers| && IsFounder(session)(peers[j]) ==>
              i <= j && IsFounder(session)(peers[i])
    ensures i < |peers| && !IsFounder(session)(peers[i]) ==> forall j :: 0 <= j < i ==> !InSession(session)(peers[j])
  {
    var f := First(peers, IsFounder(session));
    if f < |peers| then f else First(peers, InSession(session))
  }

  /** session_known_in_local_view. */
  function Known(s: Sup, session: LinkId): bool {
    session == s.session || First(s.peers, IsMeasured(session)) < |s.peers|
  }

  /** session_observe_peer for the peer in slot i. */
  function Observe(s: Sup, i: nat): (Sup, Option<Launch>)
    requires i < |s.peers|
  {
    var session := s.peers[i].sessionId;
    if session == s.session || Known(s, session) then (s, None)
    else
      var t := FounderSlot(s.peers, session);
      if t == |s.peers| || s.peers[t].mep4.addr == 0 then (s, None)
      else (s.(target := session), Some(Launch(s.peers[t].mep4.addr, s.peers[t].mep4.port, session)))
  }

  /** Whether a session whose ghost time is diff ahead of ours is joined. */
  predicate Wins(diff: int, target: LinkId, own: LinkId) {
    diff > EPS_US || (-EPS_US < diff < EPS_US && MemLess(target, own))
  }

  function Marked(p: Peer, session: LinkId, intercept: int): Peer {
    if p.inUse && p.sessionId == session then p.(measured := true, ghostOffset := intercept) else p
  }

  function MarkMeasured(peers: seq<Peer>, session: LinkId, intercept: int): (r: seq<Peer>)
    ensures |r| == |peers|
  {
    seq(|peers|, i requires 0 <= i < |peers| => Marked(peers[i], session, intercept))
  }

  /** The first among the first n peers of a session with the latest time origin;
      |peers| when none is in the session. */
  function Best(peers: seq<Peer>, session: LinkId, n: nat): (b: nat)
    requires n <= |peers|
    ensures b < n || b == |peers|
    ensures b < |peers| ==> InSession(session)(peers[b])
    ensures b == |peers| ==> forall j :: 0 <= j < n ==> !InSession(session)(peers[j])
    ensures b < |peers| ==> forall j :: 0 <= j < n && InSession(session)(peers[j]) ==>
              peers[j].timeline.timeOrigin <= peers[b].timeline.timeOrigin
    ensures b < |peers| ==> forall j :: 0 <= j < b && InSession(session)(peers[j]) ==>
              peers[j].timeline.timeOrigin < peers[b].timeline.timeOrigin
  {
    if n == 0 then |peers|
    else
      var b := Best(peers, session, n - 1);
      var p := peers[n - 1];
      if InSession(session)(p)
         && (b == |peers| || p.timeline.timeOrigin > peers[b].timeline.timeOrigin) then n - 1 else b
  }

  /** The timeline and transport of a session's best peer are adopted with it. */
  function Adopt(s: Sup): Sup {
    var b := Best(s.peers, s.session, |s.peers|);
    if b == |s.peers| then s else s.(timeline := s.peers[b].timeline, startstop := s.peers[b].startstop)
  }

  /** on_measure_done, which reads the host clock at now and later. */
  function MeasureDone(s: Sup, done: Completion, now: nat, later: nat): Sup {
    if done.Failed? then s
    else
      var diff := (now + done.intercept) - (now + s.intercept);
      var marked := s.(peers := MarkMeasured(s.peers, s.target, done.intercept));
      var chosen := if Wins(diff, s.target, s.session)
                    then Adopt(marked.(session := s.target, intercept := done.intercept)) else marked;
      chosen.(lastRemeasure := later)
  }

  /** The remeasurement half of session_tick. */
  function Remeasure(s: Sup, now: nat): (Sup, Option<Launch>)
    requires s.lastRemeasure <= now
  {
    if s.session == s.selfId || now - s.lastRemeasure <= REMEASURE_US then (s, None)
    else
      var t := FounderSlot(s.peers, s.session);
      if t == |s.peers| then (s.(lastRemeasure := now), None)
      else (s.(target := s.session, lastRemeasure := now),
            Some(Launch(s.peers[t].mep4.addr, s.peers[t].mep4.port, s.session)))
  }

  /** What measurement_start makes of a launch. */
  function Launched(m: State, launch: Option<Launch>, now: Time, later: Time): State {
    if launch.None? then m
    else AfterStart(m, launch.value.addr, launch.value.port, launch.value.session, now, later).state
  }

  // ---- the static state of session.c -----------------------------------------------

  class Supervisor {
    const node: Node
    const meas: Machine
    var intercept: int
    var target: LinkId
    var lastRemeasure: nat

    ghost predicate Valid()
      reads this, node, meas
    {
      node.Valid() && meas.Valid()
    }

    ghost function Abs(): Sup
      requires Valid()
      reads this, node, node.peers, meas
    {
      Sup(node.id, node.session, intercept, target, lastRemeasure, node.peers[..], node.timeline, node.startstop)
    }

    constructor (node: Node, meas: Machine, intercept: int)
      requires node.Valid() && meas.Valid()
      ensures Valid() && this.node == node && this.meas == meas
      ensures this.intercept == intercept && lastRemeasure == 0 && target == ZERO_ID
    {
      this.node, this.meas := node, meas;
      this.intercept, target, lastRemeasure := intercept, ZERO_ID, 0;
    }

    /** find_founder: a pass for the founder, then one for any peer. */
    method FindFounder(session: LinkId) returns (i: nat)
      requires Valid()
      ensures i == FounderSlot(node.peers[..], session)
    {
      i := 0;
      while i < node.peers.Length
        invariant i <= node.peers.Length
        invariant forall j :: 0 <= j < i ==> !IsFounder(session)(node.peers[j])
      {
        var p := node.peers[i];
        if p.inUse && p.sessionId == session && p.nodeId == session {
          FirstIs(node.peers[..], IsFounder(session), i);
          return;
        }
        i := i + 1;
      }
      FirstIs(node.peers[..], IsFounder(session), i);
      i := 0;
      while i < node.peers.Length
        invariant i <= node.peers.Length
        invariant forall j :: 0 <= j < i ==> !InSession(session)(node.peers[j])
      {
        var p := node.peers[i];
        if p.inUse && p.sessionId == session { break; }
        i := i + 1;
      }
      FirstIs(node.peers[..], InSession(session), i);
    }

    /** session_known_in_local_view. */
    method KnownInLocalView(session: LinkId) returns (known: bool)
      requires Valid()
      ensures known == Known(Abs(), session)
    {
      if session == node.session { return true; }
      for i := 0 to node.peers.Length
        invariant forall j :: 0 <= j < i ==> !IsMeasured(session)(node.peers[j])
      {
        var p := node.peers[i];
        if p.inUse && p.measured && p.sessionId == session {
          FirstIs(node.peers[..], IsMeasured(session), i);
          return true;
        }
      }
      FirstIs(node.peers[..], IsMeasured(session), node.peers.Length);
      return false;
    }

    /** session_observe_peer. The target is overwritten before measurement_start has
        its say; a busy measurement refuses the start. */
    method ObservePeer(i: nat, now: Time, later: Time) returns (ghost launch: Option<Launch>)
      requires Valid() && i < MAX_PEERS
      modifies `target, meas
      ensures Valid()
      ensures (Abs(), launch) == Observe(old(Abs()), i)
      ensures meas.Abs() == Launched(old(meas.Abs()), launch, now, later)
    {
      launch := None;
      var session := node.peers[i].sessionId;
      if session == node.session { return; }
      var known := KnownInLocalView(session);
      if known { return; }
      var t := FindFounder(session);
      if t == node.peers.Length { return; }
      var mep4 := node.peers[t].mep4;
      if mep4.addr == 0 { return; }
      target := session;
      launch := Some(Launch(mep4.addr, mep4.port, session));
      var sent := meas.Start(mep4.addr, mep4.port, session, now, later);
    }

    /** on_measure_done. */
    method OnMeasureDone(done: Completion, now: nat, later: nat)
      requires Valid()
      modifies `intercept, `lastRemeasure, node, node.peers
      ensures Valid() && node.lastBcast == old(node.lastBcast)
      ensures Abs() == MeasureDone(old(Abs()), done, now, later)
      ensures node.Sched() == if done.Measured? && Wins(done.intercept - old(intercept), target, old(node.session))
                              then Requested(old(node.Sched()), now) else old(node.Sched())
    {
      if done.Failed? { return; }
      var curGhost := now + intercept;
      var newGhost := now + done.intercept;
      var diff := newGhost - curGhost;
      var switch := false;
      if diff > EPS_US {
        switch := true;
      } else if -EPS_US < diff < EPS_US {
        if MemLess(target, node.session) { switch := true; }
      }
      for i := 0 to node.peers.Length
        invariant Valid() && Abs().(peers := old(Abs()).peers) == old(Abs()) && node.lastBcast == old(node.lastBcast)
        invariant node.Sched() == old(node.Sched())
        invariant forall j :: 0 <= j < i ==> node.peers[j] == Marked(old(node.peers[j]), target, done.intercept)
        invariant forall j :: i <= j < node.peers.Length ==> node.peers[j] == old(node.peers[j])
      {
        var p := node.peers[i];
        if p.inUse && p.sessionId == target {
          node.peers[i] := p.(measured := true, ghostOffset := done.intercept);
        }
      }
      assert node.peers[..] == MarkMeasured(old(node.peers[..]), target, done.intercept);
      if switch {
        node.session := target;
        intercept := done.intercept;
        AdoptBest();
        node.BroadcastAliveNow(now);
      }
      lastRemeasure := later;
    }

    /** The adoption loop of on_measure_done. */
    method AdoptBest()
      requires Valid()
      modifies node
      ensures Valid() && node.Sched() == old(node.Sched())
      ensures Abs() == Adopt(old(Abs()))
    {
      var best: nat := node.peers.Length;
      for i := 0 to node.peers.Length
        invariant best == Best(node.peers[..], node.session, i)
      {
        var p := node.peers[i];
        if p.inUse && p.sessionId == node.session {
          if best == node.peers.Length || p.timeline.timeOrigin > node.peers[best].timeline.timeOrigin {
            best := i;
          }
        }
      }
      if best < node.peers.Length {
        node.timeline := node.peers[best].timeline;
        node.startstop := node.peers[best].startstop;
      }
    }

    /** The remeasurement half of session_tick. */
    method RemeasureTick(clock: Time, now: Time, later: Time) returns (ghost launch: Option<Launch>)
      requires Valid() && lastRemeasure <= clock
      modifies `target, `lastRemeasure, meas
      ensures Valid()
      ensures (Abs(), launch) == Remeasure(old(Abs()), clock)
      ensures meas.Abs() == Launched(old(meas.Abs()), launch, now, later)
    {
      launch := None;
      if node.session == node.id { return; }
      if clock - lastRemeasure > REMEASURE_US {
        var t := FindFounder(node.session);
        if t < node.peers.Length {
          var mep4 := node.peers[t].mep4;
          target := node.session;
          launch := Some(Launch(mep4.addr, mep4.port, node.session));
          var sent := meas.Start(mep4.addr, mep4.port, node.session, now, later);
        }
        lastRemeasure := clock;
      }
    }
  }
}
