/** The fixed-slot peer table against the history of what the node has heard: a map
    from node ids to expiry times, kept in sixteen slots. */
module PeerHistory {
  import opened Bytes
  import opened SeqTools
  import opened Tlv
  import opened Link
  import opened Discovery

  /** A datagram handed to link_handle_rx, or a call of link_tick, at host time now. */
  datatype Event = Datagram(buf: seq<byte>, now: nat) | Tick(now: nat)

  function Step(peers: seq<Peer>, selfId: LinkId, e: Event): (r: seq<Peer>)
    ensures |r| == |peers|
  {
    match e
    case Datagram(buf, now) => AfterRx(peers, selfId, buf, now).peers
    case Tick(now) => Prune(peers, now)
  }

  /** The table after a history, starting from the cleared table. */
  function Table(selfId: LinkId, es: seq<Event>): (r: seq<Peer>)
    ensures |r| == 16
  {
    if es == [] then seq(MAX_PEERS, _ => ZERO_PEER)
    else Step(Table(selfId, es[..|es| - 1]), selfId, es[|es| - 1])
  }

  predicate Monotone(es: seq<Event>) {
    forall i, j :: 0 <= i < j < |es| ==> es[i].now <= es[j].now
  }

  /** When the latest ALIVE or RESPONSE of a node came, unless a BYEBYE came later. */
  function LastHeard(selfId: LinkId, es: seq<Event>, id: LinkId): Option<nat> {
    if es == [] then None
    else
      var e, earlier := es[|es| - 1], LastHeard(selfId, es[..|es| - 1], id);
      if e.Tick? then earlier
      else
        match Classify(e.buf, selfId)
        case Ignored => earlier
        case Bye(x) => if x == id then None else earlier
        case State(x, _) => if x == id then Some(e.now) else earlier
  }

  /** The table could take every node it heard from. */
  ghost predicate NeverFull(selfId: LinkId, es: seq<Event>) {
    es == [] ||
    var rest, e := es[..|es| - 1], es[|es| - 1];
    && NeverFull(selfId, rest)
    && (e.Datagram? && Classify(e.buf, selfId).State? ==> CanHold(Table(selfId, rest), Classify(e.buf, selfId).id))
  }

  ghost predicate Present(peers: seq<Peer>, id: LinkId) {
    exists i :: 0 <= i < |peers| && peers[i].inUse && peers[i].nodeId == id
  }

  ghost predicate Distinct(peers: seq<Peer>) {
    forall i, j :: 0 <= i < j < |peers| && peers[i].inUse && peers[j].inUse ==> peers[i].nodeId != peers[j].nodeId
  }

  /** Every entry was last heard when its expiry says. */
  ghost predicate Faithful(selfId: LinkId, es: seq<Event>, peers: seq<Peer>) {
    forall i :: 0 <= i < |peers| && peers[i].inUse ==>
      peers[i].expiresAt >= TTL_US && LastHeard(selfId, es, peers[i].nodeId) == Some(peers[i].expiresAt - TTL_US)
  }

  /** Every node heard from is in the table, or a tick came more than 6 s later. */
  ghost predicate Complete(selfId: LinkId, es: seq<Event>, peers: seq<Peer>) {
    forall id: LinkId :: LastHeard(selfId, es, id).Some? ==>
      Present(peers, id) || LateTick(es, LastHeard(selfId, es, id).value)
  }

  ghost predicate LateTick(es: seq<Event>, heard: nat) {
    exists i :: 0 <= i < |es| && es[i].Tick? && es[i].now > heard + TTL_US + PRUNE_GRACE_US
  }

  lemma {:induction false} WalkKeepsIdentity(buf: seq<byte>, p: Peer)
    ensures var q := Walk(buf, HandleEntry, p).0; q.inUse == p.inUse && q.nodeId == p.nodeId
    decreases |buf|
  {
    hide GetTimeline, GetStartStop, GetEnd4, GetEnd6, Be32;
    if !Stuck(buf) {
      var end := 8 + Be32(buf[4..8]);
      var step := HandleEntry(p, Entry(Be32(buf[..4]), buf[8..end]));
      if step.1 {
        WalkKeepsIdentity(buf[end..], step.0);
      }
    }
  }

  /** t is peers with slot i, which held id or was free, now holding id. */
  ghost predicate Slotted(peers: seq<Peer>, t: seq<Peer>, i: nat, id: LinkId, now: nat) {
    && i < |peers| == |t|
    && (forall j :: 0 <= j < |peers| && j != i ==> t[j] == peers[j])
    && t[i].inUse && t[i].nodeId == id && t[i].expiresAt == now + TTL_US
    && (if peers[i].inUse then peers[i].nodeId == id else !Present(peers, id))
  }

  /** The effect of a state message on the table's identities and expiries. */
  lemma StateStep(peers: seq<Peer>, selfId: LinkId, buf: seq<byte>, now: nat) returns (i: nat)
    requires Classify(buf, selfId).State?
    ensures var id, t := Classify(buf, selfId).id, AfterRx(peers, selfId, buf, now).peers;
            if CanHold(peers, id) then Slotted(peers, t, i, id, now) else t == peers
  {
    var id := Classify(buf, selfId).id;
    SlotOfSender(peers, id);
    hide Walk, Classify;
    var claimed;
    i, claimed := FindOrAlloc(peers, id).0, FindOrAlloc(peers, id).1;
    if i < |peers| {
      WalkKeepsIdentity(buf[20..], claimed[i]);
    }
  }

  lemma ByeStep(peers: seq<Peer>, id: LinkId)
    requires Distinct(peers)
    ensures var t := Evict(peers, id);
            && !Present(t, id)
            && forall j :: 0 <= j < |peers| ==> t[j] == if peers[j].inUse && peers[j].nodeId == id then ZERO_PEER else peers[j]
  {
    var i := First(peers, IsPeer(id));
    assert forall j :: 0 <= j < i ==> !IsPeer(id)(peers[j]);
    if i < |peers| {
      assert IsPeer(id)(peers[i]);
    }
  }

  // ---- messages ------------------------------------------------------------------------

  /** What nodes send: their state, in an ALIVE or a RESPONSE, and their goodbye. */
  datatype Message = Alive(self: Self) | Response(self: Self) | Bye(id: LinkId)

  function Encoded(m: Message): seq<byte> {
    match m
    case Alive(self) => StateMessage(self, 1)
    case Response(self) => StateMessage(self, 2)
    case Bye(id) => ByeMessage(id)
  }

  function SenderOf(m: Message): LinkId {
    match m
    case Alive(self) => self.id
    case Response(self) => self.id
    case Bye(id) => id
  }

  /** A node takes no notice of its own messages, or of any datagram with its own id. */
  lemma OwnMessagesIgnored(peers: seq<Peer>, selfId: LinkId, buf: seq<byte>, now: nat)
    requires |buf| >= 20 && buf[12..20] == selfId
    ensures AfterRx(peers, selfId, buf, now) == Heard(peers, None, false)
  {
    hide Walk;
  }

  /** ... or of anything but a message of group 0 and type 1, 2 or 3 of the protocol "_asdp_v", 1. */
  lemma OthersIgnored(peers: seq<Peer>, selfId: LinkId, buf: seq<byte>, now: nat)
    requires |buf| < 20 || buf[..8] != [0x5F, 0x61, 0x73, 0x64, 0x70, 0x5F, 0x76, 1]
             || buf[8] !in {1, 2, 3} || buf[10] != 0 || buf[11] != 0
    ensures AfterRx(peers, selfId, buf, now) == Heard(peers, None, false)
  {
    hide Walk;
  }

  /** Hearing a node's goodbye leaves its id absent and every other entry as it was. */
  lemma ByeEvicts(peers: seq<Peer>, selfId: LinkId, id: LinkId, now: nat)
    requires id != selfId && Distinct(peers)
    ensures Classify(ByeMessage(id), selfId) == Kind.Bye(id)
    ensures var h := AfterRx(peers, selfId, ByeMessage(id), now);
            && h.observed == None && !h.respond && |h.peers| == |peers| && !Present(h.peers, id)
            && forall j :: 0 <= j < |peers| ==>
                 h.peers[j] == if peers[j].inUse && peers[j].nodeId == id then ZERO_PEER else peers[j]
  {
    var buf := ByeMessage(id);
    assert buf[..8] == PROTO_ASDP && buf[8] == 3 && buf[10..12] == [0, 0] && buf[12..20] == id;
    ByeStep(peers, id);
    hide Walk, Evict;
  }

  /** When the latest ALIVE or RESPONSE of a node came, in what was sent, unless a BYEBYE came
      later; a node's own do not count. */
  datatype Said = Message(m: Message, now: nat) | Passed(now: nat)

  function LastSaid(selfId: LinkId, ms: seq<Said>, id: LinkId): Option<nat> {
    if ms == [] then None
    else
      var said, earlier := ms[|ms| - 1], LastSaid(selfId, ms[..|ms| - 1], id);
      if said.Passed? || SenderOf(said.m) != id || id == selfId then earlier
      else if said.m.Bye? then None else Some(said.now)
  }

  function OnWire(ms: seq<Said>): (es: seq<Event>)
    ensures |es| == |ms| && forall i :: 0 <= i < |ms| ==> es[i].now == ms[i].now && (es[i].Tick? <==> ms[i].Passed?)
  {
    if ms == [] then []
    else
      var said := ms[|ms| - 1];
      OnWire(ms[..|ms| - 1]) + [if said.Passed? then Tick(said.now) else Datagram(Encoded(said.m), said.now)]
  }

  lemma MessageKinds(selfId: LinkId, m: Message)
    ensures Classify(Encoded(m), selfId)
         == if SenderOf(m) == selfId then Ignored
            else if m.Bye? then Kind.Bye(SenderOf(m)) else State(SenderOf(m), m.Alive?)
  {
    if SenderOf(m) == selfId {
      IdInHeader(m);
    } else {
      match m {
        case Alive(self) => ClassifyState(self, 1, selfId);
        case Response(self) => ClassifyState(self, 2, selfId);
        case Bye(id) => ByeEvicts([], selfId, id, 0);
      }
    }
  }

  lemma IdInHeader(m: Message)
    ensures |Encoded(m)| >= 20 && Encoded(m)[12..20] == SenderOf(m)
  {
    hide Print, StateEntries;
  }

  /** On the wire, what was heard is what was said. */
  lemma {:induction false} HeardIsSaid(selfId: LinkId, ms: seq<Said>, id: LinkId)
    ensures LastHeard(selfId, OnWire(ms), id) == LastSaid(selfId, ms, id)
  {
    if ms != [] {
      var rest, said := ms[..|ms| - 1], ms[|ms| - 1];
      HeardIsSaid(selfId, rest, id);
      assert OnWire(ms)[..|ms| - 1] == OnWire(rest);
      if !said.Passed? {
        MessageKinds(selfId, said.m);
      }
      hide Classify, Encoded;
    }
  }

  /** A tick clears the entries that have been silent for a second past their expiry, and leaves
      the others exactly as they are. */
  lemma PruneLeavesRest(peers: seq<Peer>, now: nat, j: nat)
    requires j < |peers|
    ensures Prune(peers, now)[j]
         == if peers[j].inUse && now > peers[j].expiresAt + 1_000_000 then ZERO_PEER else peers[j]
  {
  }

  lemma {:induction false} TableKeeps(selfId: LinkId, es: seq<Event>)
    requires Monotone(es)
    ensures Distinct(Table(selfId, es)) && Faithful(selfId, es, Table(selfId, es))
    ensures NeverFull(selfId, es) ==> Complete(selfId, es, Table(selfId, es))
  {
    if es != [] {
      var rest, e := es[..|es| - 1], es[|es| - 1];
      TableKeeps(selfId, rest);
      StepKeeps(selfId, rest, e);
      assert es == rest + [e];
    }
  }

  lemma LateTickLater(rest: seq<Event>, e: Event, heard: nat)
    ensures LateTick(rest, heard) ==> LateTick(rest + [e], heard)
    ensures e.Tick? && e.now > heard + TTL_US + PRUNE_GRACE_US ==> LateTick(rest + [e], heard)
  {
    if LateTick(rest, heard) {
      var i :| 0 <= i < |rest| && rest[i].Tick? && rest[i].now > heard + TTL_US + PRUNE_GRACE_US;
      assert (rest + [e])[i] == rest[i];
    }
    assert (rest + [e])[|rest|] == e;
  }

  lemma StepKeeps(selfId: LinkId, rest: seq<Event>, e: Event)
    requires var peers := Table(selfId, rest); Distinct(peers) && Faithful(selfId, rest, peers)
    requires NeverFull(selfId, rest) ==> Complete(selfId, rest, Table(selfId, rest))
    ensures var es := rest + [e];
            var t := Step(Table(selfId, rest), selfId, e);
            && Distinct(t) && Faithful(selfId, es, t)
            && (NeverFull(selfId, es) ==> Complete(selfId, es, t))
  {
    var peers, es := Table(selfId, rest), rest + [e];
    assert es[..|es| - 1] == rest;
    var t := Step(peers, selfId, e);
    forall heard: nat
      ensures LateTick(rest, heard) ==> LateTick(es, heard)
      ensures e.Tick? && e.now > heard + TTL_US + PRUNE_GRACE_US ==> LateTick(es, heard)
    {
      LateTickLater(rest, e, heard);
    }
    hide LateTick;
    match e
    case Tick(now) =>
      TickKeeps(selfId, rest, es, peers, now);
    case Datagram(buf, now) =>
      var kind := Classify(buf, selfId);
      if kind.Bye? {
        ByeStep(peers, kind.id);
        ByeKeeps(selfId, rest, es, peers, t, kind.id);
      } else if kind.State? {
        var i := StateStep(peers, selfId, buf, now);
        hide Classify, AfterRx;
        StateKeeps(selfId, rest, es, peers, t, kind.id, now, i);
      }
  }

  lemma StateKeeps(selfId: LinkId, rest: seq<Event>, es: seq<Event>, peers: seq<Peer>, t: seq<Peer>,
                   id: LinkId, now: nat, i: nat)
    requires Distinct(peers) && Faithful(selfId, rest, peers)
    requires forall x: LinkId :: LastHeard(selfId, es, x) == if x == id then Some(now) else LastHeard(selfId, rest, x)
    requires forall heard: nat :: LateTick(rest, heard) ==> LateTick(es, heard)
    requires if CanHold(peers, id) then Slotted(peers, t, i, id, now) else t == peers
    ensures Distinct(t) && Faithful(selfId, es, t)
    ensures CanHold(peers, id) && Complete(selfId, rest, peers) ==> Complete(selfId, es, t)
  {
    hide LastHeard, LateTick;
    if CanHold(peers, id) && Complete(selfId, rest, peers) {
      forall x: LinkId | LastHeard(selfId, es, x).Some?
        ensures Present(t, x) || LateTick(es, LastHeard(selfId, es, x).value)
      {
        if x == id {
          assert t[i].inUse && t[i].nodeId == x;
        } else if Present(peers, x) {
          var j :| 0 <= j < |peers| && peers[j].inUse && peers[j].nodeId == x;
          assert t[j] == peers[j];
        }
      }
    }
  }

  lemma ByeKeeps(selfId: LinkId, rest: seq<Event>, es: seq<Event>, peers: seq<Peer>, t: seq<Peer>, id: LinkId)
    requires Distinct(peers) && Faithful(selfId, rest, peers) && |t| == |peers|
    requires forall x: LinkId :: LastHeard(selfId, es, x) == if x == id then None else LastHeard(selfId, rest, x)
    requires forall heard: nat :: LateTick(rest, heard) ==> LateTick(es, heard)
    requires forall j :: 0 <= j < |peers| ==>
               t[j] == if peers[j].inUse && peers[j].nodeId == id then ZERO_PEER else peers[j]
    ensures Distinct(t) && Faithful(selfId, es, t)
    ensures Complete(selfId, rest, peers) ==> Complete(selfId, es, t)
  {
    hide LastHeard, LateTick;
    if Complete(selfId, rest, peers) {
      forall x: LinkId | LastHeard(selfId, es, x).Some?
        ensures Present(t, x) || LateTick(es, LastHeard(selfId, es, x).value)
      {
        if Present(peers, x) {
          var j :| 0 <= j < |peers| && peers[j].inUse && peers[j].nodeId == x;
          assert t[j] == peers[j];
        }
      }
    }
  }

  lemma TickKeeps(selfId: LinkId, rest: seq<Event>, es: seq<Event>, peers: seq<Peer>, now: nat)
    requires Distinct(peers) && Faithful(selfId, rest, peers)
    requires forall id: LinkId :: LastHeard(selfId, es, id) == LastHeard(selfId, rest, id)
    requires forall heard: nat :: LateTick(rest, heard) ==> LateTick(es, heard)
    requires forall heard: nat :: now > heard + TTL_US + PRUNE_GRACE_US ==> LateTick(es, heard)
    ensures Distinct(Prune(peers, now)) && Faithful(selfId, es, Prune(peers, now))
    ensures Complete(selfId, rest, peers) ==> Complete(selfId, es, Prune(peers, now))
  {
    hide LastHeard, LateTick;
    var t := Prune(peers, now);
    if Complete(selfId, rest, peers) {
      forall id: LinkId | LastHeard(selfId, es, id).Some?
        ensures Present(t, id) || LateTick(es, LastHeard(selfId, es, id).value)
      {
        if Present(peers, id) {
          var i :| 0 <= i < |peers| && peers[i].inUse && peers[i].nodeId == id;
          if !Expired(peers[i], now) {
            assert t[i] == peers[i];
          }
        }
      }
    }
  }

  /** The table agrees with what was said. After any exchange of messages that ends with a tick:
      an id in the table last sent an ALIVE or a RESPONSE at most 6 s ago and no BYEBYE since,
      and every such id is in the table if the table was never full for one. */
  lemma TableAgreesWithMessages(selfId: LinkId, ms: seq<Said>, id: LinkId)
    requires ms != [] && ms[|ms| - 1].Passed?
    requires forall i, j :: 0 <= i < j < |ms| ==> ms[i].now <= ms[j].now
    ensures var now, t, said := ms[|ms| - 1].now, Table(selfId, OnWire(ms)), LastSaid(selfId, ms, id);
            && Distinct(t)
            && (Present(t, id) ==> id != selfId && said.Some? && now <= said.value + 6_000_000)
            && (NeverFull(selfId, OnWire(ms)) && said.Some? && now <= said.value + 6_000_000 ==> Present(t, id))
  {
    hide Table, NeverFull, Present, Distinct, LastHeard, LastSaid;
    HeardIsSaid(selfId, ms, id);
    NothingFromSelf(selfId, ms);
    TableAgreesWithHistory(selfId, OnWire(ms), id);
  }

  lemma {:induction false} NothingFromSelf(selfId: LinkId, ms: seq<Said>)
    ensures LastSaid(selfId, ms, selfId) == None
  {
    if ms != [] {
      NothingFromSelf(selfId, ms[..|ms| - 1]);
    }
  }

  /** The table agrees with history. After any history that ends with a tick at time
      now: node ids in the table are distinct; an id in the table was last heard no
      more than 6 s ago with no BYEBYE since; and, provided the table was never full
      for a node it heard from, every such id is in the table. */
  lemma TableAgreesWithHistory(selfId: LinkId, es: seq<Event>, id: LinkId)
    requires es != [] && es[|es| - 1].Tick? && Monotone(es)
    ensures var now := es[|es| - 1].now;
            var heard := LastHeard(selfId, es, id);
            && Distinct(Table(selfId, es))
            && (Present(Table(selfId, es), id) ==> heard.Some? && now <= heard.value + 6_000_000)
            && (NeverFull(selfId, es) && heard.Some? && now <= heard.value + 6_000_000 ==> Present(Table(selfId, es), id))
  {
    TableKeeps(selfId, es);
    var rest := es[..|es| - 1];
    var now := es[|es| - 1].now;
    var t := Table(selfId, es);
    if Present(t, id) {
      var i :| 0 <= i < |t| && t[i].inUse && t[i].nodeId == id;
      assert !Expired(Table(selfId, rest)[i], now);
    }
    var heard := LastHeard(selfId, es, id);
    if NeverFull(selfId, es) && heard.Some? && LateTick(es, heard.value) {
      var i :| 0 <= i < |es| && es[i].Tick? && es[i].now > heard.value + TTL_US + PRUNE_GRACE_US;
      assert es[i].now <= now;
    }
  }
}
