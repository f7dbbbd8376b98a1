/** Two nodes that have founded distinct sessions, every interleaving of what they
    hear, measure and decide. The nodes are numbered by their ids: node 0 has the
    lower one. A measurement of the session the other node founded is off by at most
    err from the offset that node's ghost clock had in it. */
module TwoNodes {
  import opened Bytes
  import opened Link
  import opened Measurement
  import opened Session

  datatype World = World(id0: LinkId, id1: LinkId, theta0: int, theta1: int, err: nat)

  function Id(w: World, i: nat): LinkId {
    if i == 0 then w.id0 else w.id1
  }

  function Theta(w: World, i: nat): int {
    if i == 0 then w.theta0 else w.theta1
  }

  /** How far the ghost time of the higher session is ahead of that of the lower. */
  function Lead(w: World): int {
    w.theta1 - w.theta0
  }

  /** Per node: the supervisor's variables, the session under measurement if any, every
      session the node has been in, and the sessions that the PONGs carry which the other
      node has stamped for it. */
  datatype Duo = Duo(sup: seq<Sup>, busy: seq<Option<LinkId>>, said: seq<set<LinkId>>, pongs: seq<set<LinkId>>)

  datatype Event =
    | View(i: nat, peers: seq<Peer>)                   // the table changes: heard, pruned, byebye
    | Notice(i: nat, slot: nat)                        // session_observe_peer
    | Remind(i: nat, now: nat)                         // session_tick
    | Stamp(i: nat)                                    // the other node answers a ping of i
    | Fail(i: nat)                                     // out of pings, or the session check
    | Succeed(i: nat, v: int, now: nat, later: nat)    // a completed measurement

  /** Entries are about the other node, with a session it has announced, however old. A
      measurement succeeds on PONGs that carry the session under measurement, however long
      ago they were stamped; on any other it fails. */
  predicate Enabled(w: World, d: Duo, e: Event)
    requires |d.sup| == |d.busy| == |d.said| == |d.pongs| == 2
  {
    e.i < 2 &&
    match e
    case View(i, peers) =>
      |peers| == MAX_PEERS &&
      forall k :: 0 <= k < |peers| && peers[k].inUse ==>
        peers[k].nodeId == Id(w, 1 - i) && peers[k].sessionId in d.said[1 - i]
    case Notice(i, slot) => slot < |d.sup[i].peers| && d.sup[i].peers[slot].inUse
    case Remind(i, now) => d.sup[i].lastRemeasure <= now
    case Stamp(i) => d.busy[i].Some?
    case Fail(i) => d.busy[i].Some?
    case Succeed(i, v, _, _) =>
      d.busy[i] == Some(Id(w, 1 - i)) && Id(w, 1 - i) in d.pongs[i]
      && Theta(w, 1 - i) - w.err <= v <= Theta(w, 1 - i) + w.err
  }

  /** The session under measurement, of the whole measurement state. */
  function SessionOf(m: State): Option<LinkId> {
    if m.Some? then Some(m.value.session) else None
  }

  function BusyWith(busy: Option<LinkId>, launch: Option<Launch>): Option<LinkId> {
    if busy.Some? || launch.None? then busy else Some(launch.value.session)
  }

  /** Keeping only the session loses nothing the election depends on. */
  lemma BusyProjects(m: State, launch: Option<Launch>, now: Time, later: Time)
    ensures SessionOf(Launched(m, launch, now, later)) == BusyWith(SessionOf(m), launch)
  {
  }

  function Next(w: World, d: Duo, e: Event): (r: Duo)
    requires |d.sup| == |d.busy| == |d.said| == |d.pongs| == 2 && Enabled(w, d, e)
    ensures |r.sup| == |r.busy| == |r.said| == |r.pongs| == 2
  {
    match e
    case View(i, peers) => d.(sup := d.sup[i := d.sup[i].(peers := peers)])
    case Notice(i, slot) =>
      var (s, launch) := Observe(d.sup[i], slot);
      d.(sup := d.sup[i := s], busy := d.busy[i := BusyWith(d.busy[i], launch)])
    case Remind(i, now) =>
      var (s, launch) := Remeasure(d.sup[i], now);
      d.(sup := d.sup[i := s], busy := d.busy[i := BusyWith(d.busy[i], launch)])
    case Stamp(i) => d.(pongs := d.pongs[i := d.pongs[i] + {d.sup[1 - i].session}])
    case Fail(i) =>
      d.(sup := d.sup[i := MeasureDone(d.sup[i], Failed, 0, 0)], busy := d.busy[i := None])
    case Succeed(i, v, now, later) =>
      var s := MeasureDone(d.sup[i], Measured(v), now, later);
      Duo(d.sup[i := s], d.busy[i := None], d.said[i := d.said[i] + {s.session}], d.pongs)
  }

  function Founded(w: World, i: nat): Sup {
    Sup(Id(w, i), Id(w, i), Theta(w, i), ZERO_ID, 0, seq(MAX_PEERS, _ => ZERO_PEER),
        Timeline(500_000, 0, 0), StartStop(false, 0, 0))
  }

  function Initial(w: World): Duo {
    Duo([Founded(w, 0), Founded(w, 1)], [None, None], [{w.id0}, {w.id1}], [{}, {}])
  }

  predicate Legal(w: World, d: Duo, es: seq<Event>)
    requires |d.sup| == |d.busy| == |d.said| == |d.pongs| == 2
    decreases |es|
  {
    es == [] || (Enabled(w, d, es[0]) && Legal(w, Next(w, d, es[0]), es[1..]))
  }

  function After(w: World, d: Duo, es: seq<Event>): (r: Duo)
    requires |d.sup| == |d.busy| == |d.said| == |d.pongs| == 2 && Legal(w, d, es)
    ensures |r.sup| == |r.busy| == |r.said| == |r.pongs| == 2
    decreases |es|
  {
    if es == [] then d else After(w, Next(w, d, es[0]), es[1..])
  }

  // ---- the rule -------------------------------------------------------------------

  /** v is a measurement within the error bound that makes node i switch. */
  predicate Persuades(w: World, i: nat, v: int)
    requires i < 2
  {
    && Theta(w, 1 - i) - w.err <= v <= Theta(w, 1 - i) + w.err
    && Wins(v - Theta(w, i), Id(w, 1 - i), Id(w, i))
  }

  ghost predicate MaySwitch(w: World, i: nat)
    requires i < 2
  {
    exists v :: Persuades(w, i, v)
  }

  /** The band of leads, around +500 ms, in which both nodes may switch. */
  predicate Ambiguous(w: World) {
    500_000 - w.err < Lead(w) < 500_000 + w.err
  }

  lemma BothMaySwitchOnlyInBand(w: World)
    requires MemLess(w.id0, w.id1) && MaySwitch(w, 0) && MaySwitch(w, 1)
    ensures Ambiguous(w)
  {
    MemLessTotal(w.id0, w.id1);
    var v0 :| Persuades(w, 0, v0);
    var v1 :| Persuades(w, 1, v1);
    assert v0 - w.theta0 > 500_000;
    assert v1 - w.theta1 > -500_000;
  }

  /** When the lead is further than the error from 500 ms on either side, the rule
      selects exactly one of the two nodes, whatever the measurement errors are. */
  lemma RuleSelectsExactlyOne(w: World, v0: int, v1: int)
    requires MemLess(w.id0, w.id1)
    requires var m := if Lead(w) < 0 then -Lead(w) else Lead(w); m - 500_000 > w.err || 500_000 - m > w.err
    requires w.theta1 - w.err <= v0 <= w.theta1 + w.err
    requires w.theta0 - w.err <= v1 <= w.theta0 + w.err
    ensures Wins(v0 - w.theta0, w.id1, w.id0) <==> !Wins(v1 - w.theta1, w.id0, w.id1)
  {
    MemLessTotal(w.id0, w.id1);
  }

  // ---- the invariant ------------------------------------------------------------------

  ghost predicate Switched(w: World, d: Duo, i: nat)
    requires i < 2 == |d.sup|
  {
    d.sup[i].session == Id(w, 1 - i)
  }

  ghost predicate NodeOk(w: World, d: Duo, i: nat)
    requires i < 2 == |d.sup| == |d.busy| == |d.said| == |d.pongs|
  {
    var s := d.sup[i];
    && s.selfId == Id(w, i)
    && |s.peers| == MAX_PEERS
    && (if s.session == Id(w, i) then s.intercept == Theta(w, i) && d.said[i] == {Id(w, i)}
        else Switched(w, d, i) && MaySwitch(w, i) && d.said[i] <= {w.id0, w.id1})
    && (d.busy[i].Some? ==> s.target == Id(w, 1 - i) && d.busy[i] == Some(s.target))
    && (forall k :: 0 <= k < |s.peers| && s.peers[k].inUse ==> s.peers[k].sessionId in d.said[1 - i])
  }

  ghost predicate Inv(w: World, d: Duo) {
    && |d.sup| == |d.busy| == |d.said| == |d.pongs| == 2
    && NodeOk(w, d, 0) && NodeOk(w, d, 1)
    && !(Switched(w, d, 0) && Switched(w, d, 1))
  }

  /** What a completed measurement changes, and what it leaves. */
  lemma MeasureDoneFacts(s: Sup, v: int, now: nat, later: nat)
    ensures var t := MeasureDone(s, Measured(v), now, later);
            var wins := Wins(v - s.intercept, s.target, s.session);
            && t.selfId == s.selfId && t.target == s.target
            && t.session == (if wins then s.target else s.session)
            && t.intercept == (if wins then v else s.intercept)
            && |t.peers| == |s.peers|
            && forall k :: 0 <= k < |s.peers| ==>
                 t.peers[k].inUse == s.peers[k].inUse && t.peers[k].sessionId == s.peers[k].sessionId
  {
    hide Best, Wins;
    assert now + v - (now + s.intercept) == v - s.intercept;
  }

  lemma SucceedStep(w: World, d: Duo, i: nat, v: int, now: nat, later: nat)
    requires Inv(w, d) && Enabled(w, d, Succeed(i, v, now, later)) && w.id0 != w.id1
    ensures NodeOk(w, Next(w, d, Succeed(i, v, now, later)), i)
    ensures Switched(w, d, i) ==> Switched(w, Next(w, d, Succeed(i, v, now, later)), i)
  {
    hide MeasureDone, Wins, MaySwitch;
    var s, t := d.sup[i], Next(w, d, Succeed(i, v, now, later));
    MeasureDoneFacts(s, v, now, later);
    var wins := Wins(v - s.intercept, s.target, s.session);
    if s.session == Id(w, i) && wins {
      assert Persuades(w, i, v);
      PersuadedMaySwitch(w, i, v);
    }
    assert t.said[i] == d.said[i] + {t.sup[i].session} && t.busy[i] == None && t.said[1 - i] == d.said[1 - i];
    forall k | 0 <= k < |t.sup[i].peers| && t.sup[i].peers[k].inUse
      ensures t.sup[i].peers[k].sessionId in t.said[1 - i]
    {
      assert s.peers[k].sessionId in d.said[1 - i];
    }
    assert t.sup[i].session == (if wins then Id(w, 1 - i) else s.session);
  }

  lemma PersuadedMaySwitch(w: World, i: nat, v: int)
    requires i < 2 && Persuades(w, i, v)
    ensures MaySwitch(w, i)
  {
  }

  lemma NoticeStep(w: World, d: Duo, i: nat, slot: nat)
    requires Inv(w, d) && Enabled(w, d, Notice(i, slot)) && w.id0 != w.id1
    ensures NodeOk(w, Next(w, d, Notice(i, slot)), i)
    ensures Next(w, d, Notice(i, slot)).sup[i].session == d.sup[i].session
  {
    hide FounderSlot, Known, MaySwitch;
    assert d.sup[i].peers[slot].sessionId in d.said[1 - i];
  }

  lemma RemindStep(w: World, d: Duo, i: nat, now: nat)
    requires Inv(w, d) && Enabled(w, d, Remind(i, now)) && w.id0 != w.id1
    ensures NodeOk(w, Next(w, d, Remind(i, now)), i)
    ensures Next(w, d, Remind(i, now)).sup[i].session == d.sup[i].session
  {
    RemeasureFacts(d.sup[i], now);
    hide Remeasure, MaySwitch;
  }

  /** A node re-measures only a session that is not its own id. */
  lemma RemeasureFacts(s: Sup, now: nat)
    requires s.lastRemeasure <= now
    ensures var (t, launch) := Remeasure(s, now);
            && t == s.(target := t.target, lastRemeasure := t.lastRemeasure)
            && (if launch.None? then t.target == s.target
                else s.session != s.selfId && t.target == s.session == launch.value.session)
  {
    hide FounderSlot;
  }

  /** Whatever a node does keeps it in order, and does not undo its switch. */
  lemma OwnStep(w: World, d: Duo, e: Event)
    requires Inv(w, d) && Enabled(w, d, e) && w.id0 != w.id1
    ensures NodeOk(w, Next(w, d, e), e.i)
    ensures Switched(w, d, e.i) ==> Switched(w, Next(w, d, e), e.i)
  {
    hide MeasureDone, Observe, Remeasure, MaySwitch;
    match e
    case View(_, _) =>
    case Notice(i, slot) => NoticeStep(w, d, i, slot);
    case Remind(i, now) => RemindStep(w, d, i, now);
    case Stamp(_) =>
    case Fail(i) => assert MeasureDone(d.sup[i], Failed, 0, 0) == d.sup[i] by { FailureIgnored(d.sup[i]); }
    case Succeed(i, v, now, later) => SucceedStep(w, d, i, v, now, later);
  }

  lemma FailureIgnored(s: Sup)
    ensures MeasureDone(s, Failed, 0, 0) == s
  {
  }

  /** ... and leaves the other node in order. */
  lemma OtherStep(w: World, d: Duo, e: Event)
    requires Inv(w, d) && Enabled(w, d, e)
    ensures NodeOk(w, Next(w, d, e), 1 - e.i)
    ensures Switched(w, Next(w, d, e), 1 - e.i) <==> Switched(w, d, 1 - e.i)
  {
    hide MeasureDone, Observe, Remeasure, MaySwitch;
    var t, j := Next(w, d, e), 1 - e.i;
    assert t.sup[j] == d.sup[j] && t.busy[j] == d.busy[j] && t.said[j] == d.said[j];
    assert d.said[e.i] <= t.said[e.i];
  }

  lemma SwitchedMay(w: World, d: Duo, i: nat)
    requires i < 2 == |d.sup| == |d.busy| == |d.said| == |d.pongs| && NodeOk(w, d, i) && Switched(w, d, i) && w.id0 != w.id1
    ensures MaySwitch(w, i)
  {
  }

  lemma StepKeepsInv(w: World, d: Duo, e: Event)
    requires Inv(w, d) && Enabled(w, d, e) && MemLess(w.id0, w.id1) && !Ambiguous(w)
    ensures Inv(w, Next(w, d, e))
    ensures forall i :: 0 <= i < 2 && Switched(w, d, i) ==> Switched(w, Next(w, d, e), i)
  {
    MemLessTotal(w.id0, w.id1);
    OwnStep(w, d, e);
    OtherStep(w, d, e);
    hide Next, NodeOk, MaySwitch, Ambiguous;
    var t := Next(w, d, e);
    if Switched(w, t, 0) && Switched(w, t, 1) {
      SwitchedMay(w, t, 0);
      SwitchedMay(w, t, 1);
      BothMaySwitchOnlyInBand(w);
    }
  }

  lemma {:induction false} RunKeepsInv(w: World, d: Duo, es: seq<Event>)
    requires Inv(w, d) && MemLess(w.id0, w.id1) && !Ambiguous(w) && Legal(w, d, es)
    ensures Inv(w, After(w, d, es))
    ensures forall i :: 0 <= i < 2 && Switched(w, d, i) ==> Switched(w, After(w, d, es), i)
    decreases |es|
  {
    if es != [] {
      StepKeepsInv(w, d, es[0]);
      RunKeepsInv(w, Next(w, d, es[0]), es[1..]);
    }
  }

  // ---- the theorems ---------------------------------------------------------------------

  ghost predicate Swapped(w: World, d: Duo)
    requires |d.sup| == 2
  {
    Switched(w, d, 0) && Switched(w, d, 1)
  }

  /** Outside the ambiguous band the nodes never swap sessions, whatever the
      interleaving; a measurement in progress is always of the session on record as
      its target; a switch is one the rule allows; and once the two share a session
      they share it for good, whatever is remeasured. */
  lemma NeverSwap(w: World, es: seq<Event>, more: seq<Event>)
    requires MemLess(w.id0, w.id1) && !Ambiguous(w)
    requires Legal(w, Initial(w), es) && Legal(w, After(w, Initial(w), es), more)
    ensures var d, late := After(w, Initial(w), es), After(w, After(w, Initial(w), es), more);
            && !Swapped(w, d)
            && (forall i :: 0 <= i < 2 && d.busy[i].Some? ==> d.busy[i] == Some(d.sup[i].target))
            && (forall i :: 0 <= i < 2 && Switched(w, d, i) ==> MaySwitch(w, i))
            && (d.sup[0].session == d.sup[1].session ==> late.sup[0].session == late.sup[1].session == d.sup[0].session)
  {
    MemLessTotal(w.id0, w.id1);
    assert Inv(w, Initial(w));
    RunKeepsInv(w, Initial(w), es);
    RunKeepsInv(w, After(w, Initial(w), es), more);
  }

  predicate Succeeds(e: Event, i: nat) {
    e.Succeed? && e.i == i
  }

  /** A measurement in flight against a node that has switched fails: unless a PONG was
      stamped for node i before the other switched, node i succeeds no more. */
  lemma {:induction false} NoLateSuccess(w: World, d: Duo, i: nat, es: seq<Event>)
    requires Inv(w, d) && MemLess(w.id0, w.id1) && !Ambiguous(w) && Legal(w, d, es)
    requires i < 2 && Switched(w, d, 1 - i) && Id(w, 1 - i) !in d.pongs[i]
    ensures forall k :: 0 <= k < |es| ==> !Succeeds(es[k], i)
    decreases |es|
  {
    if es != [] {
      var t := Next(w, d, es[0]);
      StepKeepsInv(w, d, es[0]);
      MemLessTotal(w.id0, w.id1);
      assert Id(w, 1 - i) !in t.pongs[i];
      NoLateSuccess(w, t, i, es[1..]);
      assert forall k :: 1 <= k < |es| ==> es[k] == es[1..][k - 1];
    }
  }

  /** The table of a node that has just heard the other's first ALIVE. */
  function FirstView(w: World, i: nat): seq<Peer>
    requires i < 2
  {
    seq(MAX_PEERS, _ => ZERO_PEER)[0 := ZERO_PEER.(inUse := true, nodeId := Id(w, 1 - i), sessionId := Id(w, 1 - i),
                                                   mep4 := End4(1, PORT))]
  }

  /** The node's state once it has launched its measurement. */
  function Measuring(w: World, i: nat): Sup
    requires i < 2
  {
    Founded(w, i).(peers := FirstView(w, i), target := Id(w, 1 - i))
  }

  lemma FirstLaunch(w: World, i: nat)
    requires i < 2 && w.id0 != w.id1
    ensures var s := Founded(w, i).(peers := FirstView(w, i));
            Observe(s, 0) == (Measuring(w, i), Some(Launch(1, PORT, Id(w, 1 - i))))
  {
    var peers, j := FirstView(w, i), Id(w, 1 - i);
    assert peers[0].inUse && peers[0].sessionId == j && peers[0].nodeId == j && !peers[0].measured;
    assert forall k :: 0 <= k < |peers| ==> !IsMeasured(j)(peers[k]);
    assert IsFounder(j)(peers[0]);
  }

  lemma {:induction false} LegalAppend(w: World, d: Duo, es: seq<Event>, fs: seq<Event>)
    requires |d.sup| == |d.busy| == |d.said| == |d.pongs| == 2
    requires Legal(w, d, es) && Legal(w, After(w, d, es), fs)
    ensures Legal(w, d, es + fs) && After(w, d, es + fs) == After(w, After(w, d, es), fs)
    decreases |es|
  {
    hide Next, Enabled;
    if es == [] {
      assert es + fs == fs;
    } else {
      assert (es + fs)[1..] == es[1..] + fs;
      LegalAppend(w, Next(w, d, es[0]), es[1..], fs);
    }
  }

  lemma OneStep(w: World, d: Duo, e: Event)
    requires |d.sup| == |d.busy| == |d.said| == |d.pongs| == 2 && Enabled(w, d, e)
    ensures Legal(w, d, [e]) && After(w, d, [e]) == Next(w, d, e)
  {
    hide Next, Enabled;
    assert [e][1..] == [];
  }

  /** Node i hears of the other, then starts measuring. */
  lemma Prepare(w: World, d: Duo, i: nat)
    requires |d.sup| == |d.busy| == |d.said| == |d.pongs| == 2 && i < 2 && w.id0 != w.id1
    requires d.sup[i] == Founded(w, i) && d.busy[i] == None && Id(w, 1 - i) in d.said[1 - i]
    ensures var es, r := [View(i, FirstView(w, i))] + [Notice(i, 0)],
                         Duo(d.sup[i := Measuring(w, i)], d.busy[i := Some(Id(w, 1 - i))], d.said, d.pongs);
            Legal(w, d, es) && After(w, d, es) == r
  {
    var e, f := View(i, FirstView(w, i)), Notice(i, 0);
    OneStep(w, d, e);
    FirstLaunch(w, i);
    var d1 := Next(w, d, e);
    assert FirstView(w, i)[0].inUse;
    OneStep(w, d1, f);
    LegalAppend(w, d, [e], [f]);
    hide Observe, Founded, Measuring, FirstView;
    assert d1.sup[i := Measuring(w, i)] == d.sup[i := Measuring(w, i)];
  }

  /** Node i is answered by the other, which is still in its own session. */
  lemma Answered(w: World, d: Duo, i: nat)
    requires |d.sup| == |d.busy| == |d.said| == |d.pongs| == 2 && i < 2 && d.busy[i].Some?
    requires d.sup[1 - i].session == Id(w, 1 - i)
    ensures Legal(w, d, [Stamp(i)])
    ensures After(w, d, [Stamp(i)]) == d.(pongs := d.pongs[i := d.pongs[i] + {Id(w, 1 - i)}])
  {
    OneStep(w, d, Stamp(i));
  }

  /** Node i completes a measurement that persuades it. */
  lemma Complete(w: World, d: Duo, i: nat, v: int)
    requires |d.sup| == |d.busy| == |d.said| == |d.pongs| == 2 && i < 2
    requires d.sup[i] == Measuring(w, i) && d.busy[i] == Some(Id(w, 1 - i)) && Persuades(w, i, v)
    requires Id(w, 1 - i) in d.pongs[i]
    ensures var es := [Succeed(i, v, 0, 0)];
            && Legal(w, d, es) && Switched(w, After(w, d, es), i)
            && After(w, d, es).sup[1 - i] == d.sup[1 - i] && After(w, d, es).busy[1 - i] == d.busy[1 - i]
            && After(w, d, es).pongs == d.pongs
  {
    MeasureDoneFacts(d.sup[i], v, 0, 0);
    hide MeasureDone;
    OneStep(w, d, Succeed(i, v, 0, 0));
  }

  /** The band is exact: the nodes can swap sessions if and only if the lead of the
      higher session over the lower is within the measurement error of 500 ms. */
  lemma SwapReachableIff(w: World)
    requires MemLess(w.id0, w.id1)
    ensures (exists es :: Legal(w, Initial(w), es) && Swapped(w, After(w, Initial(w), es))) <==> Ambiguous(w)
  {
    if Ambiguous(w) {
      var es := SwapRun(w);
    } else {
      forall es | Legal(w, Initial(w), es)
        ensures !Swapped(w, After(w, Initial(w), es))
      {
        NeverSwap(w, es, []);
      }
    }
  }

  /** In the band: both hear of each other, both measure and are answered, and both
      measurements complete, on PONGs stamped before either has switched. */
  lemma SwapRun(w: World) returns (es: seq<Event>)
    requires MemLess(w.id0, w.id1) && Ambiguous(w)
    ensures Legal(w, Initial(w), es) && Swapped(w, After(w, Initial(w), es))
  {
    MemLessTotal(w.id0, w.id1);
    var v0, v1 := w.theta0 + 500_000 + 1, w.theta1 - 500_000 + 1;
    assert Persuades(w, 0, v0) && Persuades(w, 1, v1);
    var d0 := Initial(w);
    assert Measuring(w, 0).session == w.id0 && Measuring(w, 1).session == w.id1;
    hide Next, Enabled, Persuades, Founded, Measuring, FirstView;
    Prepare(w, d0, 0);
    es := [View(0, FirstView(w, 0))] + [Notice(0, 0)];
    var d1 := After(w, d0, es);
    Prepare(w, d1, 1);
    LegalAppend(w, d0, es, [View(1, FirstView(w, 1))] + [Notice(1, 0)]);
    es := es + ([View(1, FirstView(w, 1))] + [Notice(1, 0)]);
    var d2 := After(w, d0, es);
    Answered(w, d2, 0);
    LegalAppend(w, d0, es, [Stamp(0)]);
    es := es + [Stamp(0)];
    var d3 := After(w, d0, es);
    Answered(w, d3, 1);
    LegalAppend(w, d0, es, [Stamp(1)]);
    es := es + [Stamp(1)];
    var d4 := After(w, d0, es);
    Complete(w, d4, 0, v0);
    LegalAppend(w, d0, es, [Succeed(0, v0, 0, 0)]);
    es := es + [Succeed(0, v0, 0, 0)];
    var d5 := After(w, d0, es);
    Complete(w, d5, 1, v1);
    LegalAppend(w, d0, es, [Succeed(1, v1, 0, 0)]);
    es := es + [Succeed(1, v1, 0, 0)];
  }
}
