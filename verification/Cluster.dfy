/** Any number of founders electing a session, under the one assumption that every
    measured difference of ghost times stays strictly below 500 ms. */
module Cluster {
  import opened Bytes
  import opened SeqTools
  import opened Link
  import opened Measurement
  import opened Session

  /** Per node the supervisor's variables and whether a measurement is in progress;
      every session any node has announced; and how often a node has switched. */
  datatype Net = Net(sup: seq<Sup>, busy: seq<bool>, said: set<LinkId>, switches: nat)

  datatype Event =
    | View(i: nat, peers: seq<Peer>)
    | Notice(i: nat, slot: nat)
    | Remind(i: nat, now: nat)
    | Fail(i: nat)
    | Succeed(i: nat, v: int, now: nat, later: nat)

  /** Table entries carry sessions somebody announced, however long ago. Nothing is
      assumed of a measurement but the spread of what it measures. */
  predicate Enabled(n: Net, e: Event)
    requires |n.busy| == |n.sup|
  {
    e.i < |n.sup| &&
    match e
    case View(i, peers) => forall k :: 0 <= k < |peers| && peers[k].inUse ==> peers[k].sessionId in n.said
    case Notice(i, slot) => slot < |n.sup[i].peers| && n.sup[i].peers[slot].inUse
    case Remind(i, now) => n.sup[i].lastRemeasure <= now
    case Fail(i) => n.busy[i]
    case Succeed(i, v, _, _) => n.busy[i] && -500_000 < v - n.sup[i].intercept < 500_000
  }

  function Next(n: Net, e: Event): (r: Net)
    requires |n.busy| == |n.sup| && Enabled(n, e)
    ensures |r.busy| == |r.sup| == |n.sup|
  {
    match e
    case View(i, peers) => n.(sup := n.sup[i := n.sup[i].(peers := peers)])
    case Notice(i, slot) =>
      var (s, launch) := Observe(n.sup[i], slot);
      n.(sup := n.sup[i := s], busy := n.busy[i := n.busy[i] || launch.Some?])
    case Remind(i, now) =>
      var (s, launch) := Remeasure(n.sup[i], now);
      n.(sup := n.sup[i := s], busy := n.busy[i := n.busy[i] || launch.Some?])
    case Fail(i) => n.(busy := n.busy[i := false])
    case Succeed(i, v, now, later) =>
      var s := MeasureDone(n.sup[i], Measured(v), now, later);
      Net(n.sup[i := s], n.busy[i := false], n.said + {s.session},
          n.switches + if s.session != n.sup[i].session then 1 else 0)
  }

  predicate Legal(n: Net, es: seq<Event>)
    requires |n.busy| == |n.sup|
    decreases |es|
  {
    es == [] || (Enabled(n, es[0]) && Legal(Next(n, es[0]), es[1..]))
  }

  function After(n: Net, es: seq<Event>): (r: Net)
    requires |n.busy| == |n.sup| && Legal(n, es)
    ensures |r.busy| == |r.sup| == |n.sup|
    decreases |es|
  {
    if es == [] then n else After(Next(n, es[0]), es[1..])
  }

  /** Distinct ids, each node in the session it founded. */
  ghost predicate Founders(ids: seq<LinkId>, n: Net) {
    && |n.sup| == |n.busy| == |ids|
    && (forall i, j :: 0 <= i < j < |ids| ==> ids[i] != ids[j])
    && n.said == (set id | id in ids)
    && n.switches == 0
    && forall i :: 0 <= i < |ids| ==>
         && n.sup[i].selfId == n.sup[i].session == ids[i]
         && !n.busy[i]
         && forall k :: 0 <= k < |n.sup[i].peers| ==> !n.sup[i].peers[k].inUse
  }

  // ---- ranks ---------------------------------------------------------------------

  function Below(x: LinkId): LinkId -> bool {
    (y: LinkId) => MemLess(y, x)
  }

  function Above(x: LinkId): LinkId -> bool {
    (y: LinkId) => MemLess(x, y)
  }

  /** How many of the ids are lower than x. */
  function Rank(ids: seq<LinkId>, x: LinkId): nat {
    Count(ids, Below(x))
  }

  function RankSum(ids: seq<LinkId>, xs: seq<LinkId>): nat {
    if xs == [] then 0 else Rank(ids, xs[0]) + RankSum(ids, xs[1..])
  }

  lemma LowerRank(ids: seq<LinkId>, x: LinkId, y: LinkId)
    requires x in ids && MemLess(x, y)
    ensures Rank(ids, x) < Rank(ids, y)
  {
    var k :| 0 <= k < |ids| && ids[k] == x;
    MemLessTotal(x, x);
    forall i | 0 <= i < |ids| && Below(x)(ids[i])
      ensures Below(y)(ids[i])
    {
      MemLessTransitive(ids[i], x, y);
    }
    CountStrict(ids, Below(x), Below(y), k);
  }

  lemma {:induction false} RankSumUpdate(ids: seq<LinkId>, xs: seq<LinkId>, i: nat, x: LinkId)
    requires i < |xs|
    ensures RankSum(ids, xs[i := x]) + Rank(ids, xs[i]) == RankSum(ids, xs) + Rank(ids, x)
    decreases |xs|
  {
    if i == 0 {
      assert xs[0 := x][1..] == xs[1..];
    } else {
      RankSumUpdate(ids, xs[1..], i - 1, x);
      assert xs[i := x][1..] == xs[1..][i - 1 := x];
    }
  }

  /** One more id x adds, over a list of ids, one for each that is above x. */
  lemma {:induction false} RankSumCons(x: LinkId, ids: seq<LinkId>, xs: seq<LinkId>)
    ensures RankSum([x] + ids, xs) == RankSum(ids, xs) + Count(xs, Above(x))
    decreases |xs|
  {
    if xs != [] {
      RankSumCons(x, ids, xs[1..]);
      assert ([x] + ids)[1..] == ids;
    }
  }

  lemma {:induction false} BelowOrAbove(x: LinkId, ids: seq<LinkId>)
    requires x !in ids
    ensures Count(ids, Below(x)) + Count(ids, Above(x)) == |ids|
    decreases |ids|
  {
    if ids != [] {
      MemLessTotal(x, ids[0]);
      assert ids[0] in ids;
      BelowOrAbove(x, ids[1..]);
    }
  }

  /** Distinct ids have ranks 0, 1, ..., n - 1 in some order. */
  lemma {:induction false} RanksOfDistinct(ids: seq<LinkId>)
    requires forall i, j :: 0 <= i < j < |ids| ==> ids[i] != ids[j]
    ensures 2 * RankSum(ids, ids) == |ids| * (|ids| - 1)
    decreases |ids|
  {
    if ids != [] {
      var x, rest := ids[0], ids[1..];
      RanksOfDistinct(rest);
      RankOfHead(ids);
      assert RankSum(ids, ids) == Rank(ids, x) + RankSum(ids, rest);
      hide RankSum, Rank, Count;
      RankSumCons(x, rest, rest);
      BelowOrAbove(x, rest);
      assert ids == [x] + rest;
      Triangle(|rest|, RankSum(rest, rest));
    }
  }

  lemma RankOfHead(ids: seq<LinkId>)
    requires ids != []
    ensures Rank(ids, ids[0]) == Count(ids[1..], Below(ids[0]))
  {
    MemLessTotal(ids[0], ids[0]);
  }

  lemma Triangle(n: nat, s: nat)
    requires 2 * s == n * (n - 1)
    ensures 2 * (s + n) == (n + 1) * (n + 1 - 1)
  {
  }

  // ---- the invariant ----------------------------------------------------------------

  function Sessions(n: Net): (s: seq<LinkId>)
    ensures |s| == |n.sup|
  {
    seq(|n.sup|, i requires 0 <= i < |n.sup| => n.sup[i].session)
  }

  ghost predicate Inv(ids: seq<LinkId>, n: Net) {
    && |n.sup| == |n.busy| == |ids|
    && (forall x :: x in n.said ==> x in ids)
    && (forall i :: 0 <= i < |ids| ==>
          && n.sup[i].session in n.said
          && (n.busy[i] ==> n.sup[i].target in n.said)
          && forall k :: 0 <= k < |n.sup[i].peers| && n.sup[i].peers[k].inUse ==> n.sup[i].peers[k].sessionId in n.said)
    && 2 * (RankSum(ids, Sessions(n)) + n.switches) <= |ids| * (|ids| - 1)
  }

  /** A node that switches moves to a byte-lexicographically lower session. */
  lemma SwitchLowers(n: Net, e: Event, i: nat)
    requires |n.busy| == |n.sup| && Enabled(n, e) && i < |n.sup|
    ensures var was, joined := n.sup[i].session, Next(n, e).sup[i].session;
            joined != was ==> e.Succeed? && e.i == i && joined == n.sup[i].target && MemLess(joined, was)
  {
    hide Best, FounderSlot, Known;
    match e
    case Succeed(j, v, now, later) =>
      assert now + v - (now + n.sup[j].intercept) == v - n.sup[j].intercept;
    case _ =>
  }

  /** What a step does to the tables, targets and announcements. */
  lemma StepKeepsIds(ids: seq<LinkId>, n: Net, e: Event)
    requires Inv(ids, n) && Enabled(n, e)
    ensures var t := Next(n, e);
            && (forall x :: x in t.said ==> x in ids)
            && n.said <= t.said
            && (forall i :: 0 <= i < |ids| ==>
                  && t.sup[i].session in t.said
                  && (t.busy[i] ==> t.sup[i].target in t.said)
                  && forall k :: 0 <= k < |t.sup[i].peers| && t.sup[i].peers[k].inUse ==> t.sup[i].peers[k].sessionId in t.said)
  {
    hide Best, FounderSlot, Known;
    match e
    case Succeed(i, v, now, later) =>
      SucceedKeepsIds(n.sup[i], v, now, later, n.said);
      hide MeasureDone;
    case _ =>
  }

  lemma SucceedKeepsIds(s: Sup, v: int, now: nat, later: nat, said: set<LinkId>)
    requires s.target in said && s.session in said
    requires forall k :: 0 <= k < |s.peers| && s.peers[k].inUse ==> s.peers[k].sessionId in said
    ensures var t := MeasureDone(s, Measured(v), now, later);
            && t.session in said && t.target == s.target
            && forall k :: 0 <= k < |t.peers| && t.peers[k].inUse ==> t.peers[k].sessionId in said
  {
    hide Best, Wins;
  }

  lemma StepKeepsInv(ids: seq<LinkId>, n: Net, e: Event)
    requires Inv(ids, n) && Enabled(n, e)
    ensures Inv(ids, Next(n, e))
  {
    StepKeepsIds(ids, n, e);
    SwitchLowers(n, e, e.i);
    OthersStay(n, e);
    hide Next, Enabled;
    var t := Next(n, e);
    var was, joined := n.sup[e.i].session, t.sup[e.i].session;
    assert Sessions(t) == Sessions(n)[e.i := joined];
    RankSumUpdate(ids, Sessions(n), e.i, joined);
    if joined != was {
      LowerRank(ids, joined, was);
    }
  }

  lemma OthersStay(n: Net, e: Event)
    requires |n.busy| == |n.sup| && Enabled(n, e)
    ensures var t := Next(n, e);
            && (forall i :: 0 <= i < |n.sup| && i != e.i ==> t.sup[i] == n.sup[i])
            && t.switches == n.switches + if t.sup[e.i].session != n.sup[e.i].session then 1 else 0
  {
    hide Best, FounderSlot, Known, MeasureDone;
  }

  lemma {:induction false} RunKeepsInv(ids: seq<LinkId>, n: Net, es: seq<Event>)
    requires Inv(ids, n) && Legal(n, es)
    ensures Inv(ids, After(n, es))
    decreases |es|
  {
    if es != [] {
      StepKeepsInv(ids, n, es[0]);
      hide Inv, Next, Enabled;
      RunKeepsInv(ids, Next(n, es[0]), es[1..]);
    }
  }

  // ---- the theorems --------------------------------------------------------------------

  /** n founders switch at most n(n - 1)/2 times in total, over any run whatever. */
  lemma ElectionTerminates(ids: seq<LinkId>, n: Net, es: seq<Event>)
    requires Founders(ids, n) && Legal(n, es)
    ensures 2 * After(n, es).switches <= |ids| * (|ids| - 1)
  {
    FoundersInv(ids, n);
    RunKeepsInv(ids, n, es);
  }

  lemma FoundersInv(ids: seq<LinkId>, n: Net)
    requires Founders(ids, n)
    ensures Inv(ids, n)
  {
    RanksOfDistinct(ids);
    assert Sessions(n) == ids;
    assert forall i :: 0 <= i < |ids| ==> ids[i] in ids;
  }

  lemma {:induction false} LowestStays(ids: seq<LinkId>, n: Net, es: seq<Event>, i: nat)
    requires Inv(ids, n) && Legal(n, es)
    requires i < |ids| && n.sup[i].session == ids[i]
    requires forall j :: 0 <= j < |ids| ==> ids[j] == ids[i] || MemLess(ids[i], ids[j])
    ensures After(n, es).sup[i].session == ids[i]
    decreases |es|
  {
    if es != [] {
      StepKeepsInv(ids, n, es[0]);
      SwitchLowers(n, es[0], i);
      StaysLowest(ids, n, es[0], i);
      hide Inv, Next, Enabled;
      LowestStays(ids, Next(n, es[0]), es[1..], i);
    }
  }

  lemma StaysLowest(ids: seq<LinkId>, n: Net, e: Event, i: nat)
    requires Inv(ids, n) && Enabled(n, e) && i < |ids| && n.sup[i].session == ids[i]
    requires forall j :: 0 <= j < |ids| ==> ids[j] == ids[i] || MemLess(ids[i], ids[j])
    requires Next(n, e).sup[i].session != ids[i] ==> MemLess(Next(n, e).sup[i].session, ids[i])
    ensures Next(n, e).sup[i].session == ids[i]
  {
    StepKeepsIds(ids, n, e);
    hide Next, Enabled;
    var x := Next(n, e).sup[i].session;
    assert x in ids;
    var j :| 0 <= j < |ids| && ids[j] == x;
    MemLessTotal(ids[i], x);
  }

  /** The founder of the lowest id never leaves its session. */
  lemma LowestFounderStays(ids: seq<LinkId>, n: Net, es: seq<Event>, i: nat)
    requires Founders(ids, n) && Legal(n, es) && i < |ids|
    requires forall j :: 0 <= j < |ids| ==> j == i || MemLess(ids[i], ids[j])
    ensures After(n, es).sup[i].session == ids[i]
  {
    FoundersInv(ids, n);
    LowestStays(ids, n, es, i);
  }
}
