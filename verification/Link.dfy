/** link.c: the discovery message codec, the peer table, the broadcast schedule and
    local edits of the timeline. */
module Link {
  import opened Bytes
  import opened Tlv
  import opened SeqTools

  const MAX_PEERS := 16
  const TTL_SEC: byte := 5
  const TTL_US := 5_000_000
  const PRUNE_GRACE_US := 1_000_000
  const BCAST_US := 250_000
  const MIN_BCAST_US := 50_000
  const MAX_MSG := 512
  const PORT: u16 := 20808

  /** "_asdp_v" 0x01. */
  const PROTO_ASDP: seq<byte> := [0x5F, 0x61, 0x73, 0x64, 0x70, 0x5F, 0x76, 0x01]

  type Ip6 = s: seq<byte> | |s| == 16 witness [0, 0, 0, 0, 0, 0, 0, 0, 0, 0, 0, 0, 0, 0, 0, 0]
  const ZERO_IP6: Ip6 := [0, 0, 0, 0, 0, 0, 0, 0, 0, 0, 0, 0, 0, 0, 0, 0]

  datatype Timeline = Timeline(tempo: i64, beatOrigin: i64, timeOrigin: i64)
  datatype StartStop = StartStop(isPlaying: bool, beats: i64, timestamp: i64)
  datatype End4 = End4(addr: u32, port: u16)
  datatype End6 = End6(addr: Ip6, port: u16, have: bool)

  /** link_peer_t. */
  datatype Peer = Peer(inUse: bool, nodeId: LinkId, sessionId: LinkId, timeline: Timeline, startstop: StartStop,
                       mep4: End4, aep4: End4, mep6: End6, aep6: End6,
                       expiresAt: nat, measured: bool, ghostOffset: int)

  /** memset(p, 0, sizeof *p). */
  const ZERO_PEER := Peer(false, ZERO_ID, ZERO_ID, Timeline(0, 0, 0), StartStop(false, 0, 0),
                          End4(0, 0), End4(0, 0), End6(ZERO_IP6, 0, false), End6(ZERO_IP6, 0, false), 0, false, 0)

  /** What a node tells about itself. */
  datatype Self = Self(id: LinkId, session: LinkId, timeline: Timeline, startstop: StartStop, ipv4: u32, ipv6: Ip6)

  // ---- payload fields ----------------------------------------------------------

  function PutTimeline(t: Timeline): (s: seq<byte>)
    ensures |s| == 24 && GetTimeline(s) == t
  {
    var a, b, c := Put64(ToU64(t.tempo)), Put64(ToU64(t.beatOrigin)), Put64(ToU64(t.timeOrigin));
    var s := a + b + c;
    assert s[..8] == a;
    assert s[8..16] == b;
    assert s[16..24] == c;
    s
  }

  function GetTimeline(s: seq<byte>): Timeline
    requires |s| == 24
  {
    Timeline(ToI64(Be64(s[..8])), ToI64(Be64(s[8..16])), ToI64(Be64(s[16..24])))
  }

  function PutStartStop(t: StartStop): (s: seq<byte>)
    ensures |s| == 17 && GetStartStop(s) == t
  {
    var a, b := Put64(ToU64(t.beats)), Put64(ToU64(t.timestamp));
    var s := [if t.isPlaying then 1 else 0] + a + b;
    assert s[1..9] == a && s[9..17] == b;
    s
  }

  function GetStartStop(s: seq<byte>): StartStop
    requires |s| == 17
  {
    StartStop(s[0] != 0, ToI64(Be64(s[1..9])), ToI64(Be64(s[9..17])))
  }

  function PutEnd4(e: End4): (s: seq<byte>)
    ensures |s| == 6 && GetEnd4(s) == e
  {
    var a, b := Put32(e.addr), Put16(e.port);
    assert (a + b)[..4] == a && (a + b)[4..] == b;
    a + b
  }

  function GetEnd4(s: seq<byte>): End4
    requires |s| == 6
  {
    End4(Be32(s[..4]), Be16(s[4..]))
  }

  function PutEnd6(addr: Ip6, port: u16): (s: seq<byte>)
    ensures |s| == 18 && GetEnd6(s) == End6(addr, port, true)
  {
    assert (addr + Put16(port))[..16] == addr && (addr + Put16(port))[16..] == Put16(port);
    addr + Put16(port)
  }

  function GetEnd6(s: seq<byte>): End6
    requires |s| == 18
  {
    End6(s[..16], Be16(s[16..]), true)
  }

  // ---- messages -------------------------------------------------------------------

  function MessageHeader(mtype: byte, ttl: byte, id: LinkId): (s: seq<byte>)
    ensures |s| == 20
  {
    PROTO_ASDP + [mtype, ttl, 0, 0] + id
  }

  function StateEntries(self: Self): seq<Entry> {
    [Entry(KEY_TMLN, PutTimeline(self.timeline)),
     Entry(KEY_SESS, self.session),
     Entry(KEY_STST, PutStartStop(self.startstop)),
     Entry(KEY_MEP4, PutEnd4(End4(self.ipv4, PORT))),
     Entry(KEY_MEP6, PutEnd6(self.ipv6, PORT)),
     Entry(KEY_AEP4, PutEnd4(End4(self.ipv4, PORT))),
     Entry(KEY_AEP6, PutEnd6(self.ipv6, PORT))]
  }

  /** ALIVE (type 1) and RESPONSE (type 2). */
  function StateMessage(self: Self, mtype: byte): seq<byte> {
    MessageHeader(mtype, TTL_SEC, self.id) + Print(StateEntries(self))
  }

  /** The message grown by one more entry. */
  lemma Grown(head: seq<byte>, es: seq<Entry>, k: nat)
    requires k < |es|
    ensures head + Print(es[..k + 1]) == head + Print(es[..k]) + PrintEntry(es[k])
  {
    PrintAppend(es[..k], [es[k]]);
    PrintOne(es[k]);
    assert es[..k + 1] == es[..k] + [es[k]];
    Assoc(head, Print(es[..k]), PrintEntry(es[k]));
  }

  method EmitTimeline(buf: array<byte>, p: nat, t: Timeline) returns (q: nat)
    requires p + 32 <= buf.Length
    modifies buf
    ensures q == p + 32 && buf[..q] == old(buf[..p]) + PrintEntry(Entry(KEY_TMLN, PutTimeline(t)))
  {
    TimelineParts(t);
    hide Put64, PutTimeline, Header;
    ghost var s := buf[..p];
    q := EmitHeader(buf, p, KEY_TMLN, 24);
    q := EmitBe64(buf, q, ToU64(t.tempo));
    q := EmitBe64(buf, q, ToU64(t.beatOrigin));
    q := EmitBe64(buf, q, ToU64(t.timeOrigin));
    Regroup(s, Header(KEY_TMLN, 24), Put64(ToU64(t.tempo)), Put64(ToU64(t.beatOrigin)), Put64(ToU64(t.timeOrigin)));
  }

  lemma TimelineParts(t: Timeline)
    ensures PutTimeline(t) == Put64(ToU64(t.tempo)) + Put64(ToU64(t.beatOrigin)) + Put64(ToU64(t.timeOrigin))
  {
    hide Put64;
  }

  lemma StartStopParts(t: StartStop)
    ensures PutStartStop(t) == [if t.isPlaying then 1 else 0] + Put64(ToU64(t.beats)) + Put64(ToU64(t.timestamp))
  {
    hide Put64;
  }

  method EmitStartStop(buf: array<byte>, p: nat, t: StartStop) returns (q: nat)
    requires p + 25 <= buf.Length
    modifies buf
    ensures q == p + 25 && buf[..q] == old(buf[..p]) + PrintEntry(Entry(KEY_STST, PutStartStop(t)))
  {
    StartStopParts(t);
    hide Put64, PutStartStop, Header;
    ghost var s := buf[..p];
    q := EmitHeader(buf, p, KEY_STST, 17);
    q := EmitRaw(buf, q, [if t.isPlaying then 1 else 0]);
    q := EmitBe64(buf, q, ToU64(t.beats));
    q := EmitBe64(buf, q, ToU64(t.timestamp));
    Regroup(s, Header(KEY_STST, 17), [if t.isPlaying then 1 else 0], Put64(ToU64(t.beats)), Put64(ToU64(t.timestamp)));
  }

  method EmitEnd4(buf: array<byte>, p: nat, key: u32, e: End4) returns (q: nat)
    requires p + 14 <= buf.Length
    modifies buf
    ensures q == p + 14 && buf[..q] == old(buf[..p]) + PrintEntry(Entry(key, PutEnd4(e)))
  {
    q := EmitHeader(buf, p, key, 6);
    q := EmitBe32(buf, q, e.addr);
    q := EmitBe16(buf, q, e.port);
  }

  method EmitEnd6(buf: array<byte>, p: nat, key: u32, addr: Ip6, port: u16) returns (q: nat)
    requires p + 26 <= buf.Length
    modifies buf
    ensures q == p + 26 && buf[..q] == old(buf[..p]) + PrintEntry(Entry(key, PutEnd6(addr, port)))
  {
    q := EmitHeader(buf, p, key, 18);
    q := EmitRaw(buf, q, addr);
    q := EmitBe16(buf, q, port);
  }

  /** encode_msg with state: writes the message at the front of the buffer. It is 173
      bytes long, under the 512 of the buffer. */
  method EncodeMsg(buf: array<byte>, self: Self, mtype: byte) returns (n: nat)
    requires buf.Length == MAX_MSG
    modifies buf
    ensures n == 173 && buf[..n] == StateMessage(self, mtype)
  {
    hide Print, PrintEntry, PutTimeline, PutStartStop, PutEnd4, PutEnd6, MessageHeader;
    ghost var es := StateEntries(self);
    var head := MessageHeader(mtype, TTL_SEC, self.id);
    n := EmitRaw(buf, 0, head);
    assert buf[..n] == head + Print(es[..0]) by { PrintNone(); }
    Grown(head, es, 0);
    n := EmitTimeline(buf, n, self.timeline);
    Grown(head, es, 1);
    n := EmitBytes(buf, n, KEY_SESS, self.session);
    Grown(head, es, 2);
    n := EmitStartStop(buf, n, self.startstop);
    Grown(head, es, 3);
    n := EmitEnd4(buf, n, KEY_MEP4, End4(self.ipv4, PORT));
    Grown(head, es, 4);
    n := EmitEnd6(buf, n, KEY_MEP6, self.ipv6, PORT);
    Grown(head, es, 5);
    n := EmitEnd4(buf, n, KEY_AEP4, End4(self.ipv4, PORT));
    Grown(head, es, 6);
    n := EmitEnd6(buf, n, KEY_AEP6, self.ipv6, PORT);
    assert es[..7] == es;
  }

  /** The message of link_send_byebye. */
  function ByeMessage(id: LinkId): (s: seq<byte>)
    ensures |s| == 20
  {
    MessageHeader(3, 0, id)
  }

  /** link_send_byebye, up to the sending. */
  method EncodeBye(buf: array<byte>, id: LinkId) returns (n: nat)
    requires buf.Length == MAX_MSG
    modifies buf
    ensures n == 20 && buf[..n] == ByeMessage(id)
  {
    n := EmitRaw(buf, 0, PROTO_ASDP);
    n := EmitRaw(buf, n, [3, 0, 0, 0]);
    n := EmitRaw(buf, n, id);
    assert buf[..n] == PROTO_ASDP + [3, 0, 0, 0] + id;
  }

  // ---- the decoder ------------------------------------------------------------------

  /** handle_entry. Unknown keys are skipped. */
  function HandleEntry(p: Peer, e: Entry): (Peer, bool) {
    var n := |e.value|;
    if e.key == KEY_TMLN then
      if n != 24 then (p, false) else (p.(timeline := GetTimeline(e.value)), true)
    else if e.key == KEY_SESS then
      if n != 8 then (p, false) else (p.(sessionId := e.value), true)
    else if e.key == KEY_STST then
      if n != 17 then (p, false) else (p.(startstop := GetStartStop(e.value)), true)
    else if e.key == KEY_MEP4 then
      if n != 6 then (p, false) else (p.(mep4 := GetEnd4(e.value)), true)
    else if e.key == KEY_AEP4 then
      if n != 6 then (p, false) else (p.(aep4 := GetEnd4(e.value)), true)
    else if e.key == KEY_MEP6 then
      if n != 18 then (p, false) else (p.(mep6 := GetEnd6(e.value)), true)
    else if e.key == KEY_AEP6 then
      if n != 18 then (p, false) else (p.(aep6 := GetEnd6(e.value)), true)
    else (p, true)
  }

  // ---- the peer table ------------------------------------------------------------------

  function IsPeer(id: LinkId): Peer -> bool {
    (p: Peer) => p.inUse && p.nodeId == id
  }

  function IsFree(): Peer -> bool {
    (p: Peer) => !p.inUse
  }

  /** find_or_alloc_peer: the slot, |peers| for a full table, and the table with a
      new entry cleared and claimed. */
  function FindOrAlloc(peers: seq<Peer>, id: LinkId): (r: (nat, seq<Peer>))
    ensures r.0 <= |peers| == |r.1|
    ensures r.0 < |peers| ==> IsPeer(id)(r.1[r.0])
  {
    var i := First(peers, IsPeer(id));
    if i < |peers| then (i, peers)
    else
      var j := First(peers, IsFree());
      if j < |peers| then (j, peers[j := ZERO_PEER.(inUse := true, nodeId := id)]) else (j, peers)
  }

  function Evict(peers: seq<Peer>, id: LinkId): (r: seq<Peer>)
    ensures |r| == |peers|
  {
    var i := First(peers, IsPeer(id));
    if i < |peers| then peers[i := ZERO_PEER] else peers
  }

  predicate Expired(p: Peer, now: nat) {
    p.inUse && now > p.expiresAt + PRUNE_GRACE_US
  }

  function Prune(peers: seq<Peer>, now: nat): (r: seq<Peer>)
    ensures |r| == |peers|
  {
    seq(|peers|, i requires 0 <= i < |peers| => if Expired(peers[i], now) then ZERO_PEER else peers[i])
  }

  // ---- reception ----------------------------------------------------------------------

  /** What a datagram is, going by its header. */
  datatype Kind = Ignored | Bye(id: LinkId) | State(id: LinkId, alive: bool)

  function Classify(buf: seq<byte>, selfId: LinkId): Kind {
    if |buf| < 20 || buf[..8] != PROTO_ASDP || Be16(buf[10..12]) != 0 || buf[12..20] == selfId then Ignored
    else if buf[8] == 3 then Bye(buf[12..20])
    else if buf[8] == 1 || buf[8] == 2 then State(buf[12..20], buf[8] == 1)
    else Ignored
  }

  /** The table after a datagram heard at host time now, the slot handed to the
      session supervisor, and whether a RESPONSE goes back. */
  datatype Heard = Heard(peers: seq<Peer>, observed: Option<nat>, respond: bool)

  function AfterRx(peers: seq<Peer>, selfId: LinkId, buf: seq<byte>, now: nat): Heard {
    match Classify(buf, selfId)
    case Ignored => Heard(peers, None, false)
    case Bye(id) => Heard(Evict(peers, id), None, false)
    case State(id, alive) =>
      var (i, claimed) := FindOrAlloc(peers, id);
      if i == |peers| then Heard(peers, None, false)
      else
        var p := Walk(buf[20..], HandleEntry, claimed[i]).0;
        Heard(claimed[i := p.(expiresAt := now + TTL_US)], Some(i), alive)
  }

  // ---- the broadcast schedule -----------------------------------------------------------

  datatype Schedule = Schedule(last: nat, next: nat, dirty: bool)

  /** The broadcast half of link_tick at host time now; stamp is the clock when the
      ALIVE, if any, has gone out. */
  function AfterTick(s: Schedule, now: nat, stamp: nat): (r: (Schedule, bool))
    requires s.last <= now
  {
    if s.dirty || now >= s.next then
      if now - s.last >= MIN_BCAST_US then (Schedule(stamp, stamp + BCAST_US, false), true)
      else (s.(next := s.last + MIN_BCAST_US), false)
    else (s, false)
  }

  /** link_broadcast_alive_now. */
  function Requested(s: Schedule, now: nat): Schedule {
    s.(dirty := true, next := now)
  }

  // ---- local edits ------------------------------------------------------------------------

  /** The cast (int64_t)x of a double, in exact arithmetic. */
  function Truncate(x: real): int {
    if x >= 0.0 then x.Floor else -((-x).Floor)
  }

  /** The beat position, in micro-beats, that a timeline gives ghost time g. */
  function BeatsAt(t: Timeline, g: int): int
    requires t.tempo != 0
  {
    t.beatOrigin + Truncate((g - t.timeOrigin) as real * 1000000.0 / t.tempo as real)
  }

  /** Microseconds per beat for a tempo in beats per minute, rounded to nearest. */
  function UsPerBeat(bpm: real): int
    requires bpm != 0.0
  {
    Truncate(60000000.0 / bpm + 0.5)
  }

  /** The timeline after link_set_local_tempo at ghost time g. */
  function Retempo(t: Timeline, bpm: real, g: i64): Timeline
    requires t.tempo != 0 && bpm != 0.0 && InI64(BeatsAt(t, g)) && InI64(UsPerBeat(bpm))
  {
    Timeline(UsPerBeat(bpm), BeatsAt(t, g), g)
  }

  // ---- the static state of link.c -----------------------------------------------------------

  class Node {
    const id: LinkId
    const ipv4: u32
    const ipv6: Ip6
    var session: LinkId
    var timeline: Timeline
    var startstop: StartStop
    const peers: array<Peer>
    var lastBcast: nat
    var nextBcast: nat
    var dirty: bool

    ghost predicate Valid()
      reads this
    {
      peers.Length == MAX_PEERS
    }

    function Sched(): Schedule
      reads this
    {
      Schedule(lastBcast, nextBcast, dirty)
    }

    /** link_init; the id is random. */
    constructor (id: LinkId, ipv4: u32, ipv6: Ip6, ghostNow: i64, now: nat)
      ensures Valid() && fresh(peers) && this.id == id && this.ipv4 == ipv4 && this.ipv6 == ipv6
      ensures session == id && timeline == Timeline(500_000, 0, ghostNow)
      ensures startstop == StartStop(false, 0, ghostNow) && Sched() == Schedule(0, now, true)
      ensures forall i :: 0 <= i < MAX_PEERS ==> peers[i] == ZERO_PEER
    {
      this.id, this.ipv4, this.ipv6 := id, ipv4, ipv6;
      session, timeline, startstop := id, Timeline(500_000, 0, ghostNow), StartStop(false, 0, ghostNow);
      lastBcast, nextBcast, dirty := 0, now, true;
      peers := new Peer[MAX_PEERS](_ => ZERO_PEER);
    }

    /** One pass finds the peer or remembers the first free slot. */
    method FindOrAllocPeer(id: LinkId) returns (i: nat)
      requires Valid()
      modifies peers
      ensures (i, peers[..]) == FindOrAlloc(old(peers[..]), id)
    {
      var freeSlot: nat := peers.Length;
      i := 0;
      while i < peers.Length
        invariant i <= peers.Length
        invariant forall j :: 0 <= j < i ==> !IsPeer(id)(peers[j])
        invariant freeSlot == peers.Length || (freeSlot < i && !peers[freeSlot].inUse)
        invariant forall j :: 0 <= j < i && j < freeSlot ==> peers[j].inUse
      {
        if peers[i].inUse && peers[i].nodeId == id {
          FirstIs(peers[..], IsPeer(id), i);
          return;
        }
        if !peers[i].inUse && freeSlot == peers.Length { freeSlot := i; }
        i := i + 1;
      }
      FirstIs(peers[..], IsPeer(id), i);
      FirstIs(peers[..], IsFree(), freeSlot);
      i := freeSlot;
      if i < peers.Length {
        peers[i] := ZERO_PEER.(inUse := true, nodeId := id);
      }
    }

    method EvictPeer(id: LinkId)
      requires Valid()
      modifies peers
      ensures peers[..] == Evict(old(peers[..]), id)
    {
      for i := 0 to peers.Length
        invariant peers[..] == old(peers[..])
        invariant forall j :: 0 <= j < i ==> !IsPeer(id)(peers[j])
      {
        if peers[i].inUse && peers[i].nodeId == id {
          FirstIs(peers[..], IsPeer(id), i);
          peers[i] := ZERO_PEER;
          return;
        }
      }
      FirstIs(peers[..], IsPeer(id), peers.Length);
    }

    /** link_handle_rx. The slot it hands to session_observe_peer and its decision to
        send a RESPONSE are returned. */
    method HandleRx(buf: seq<byte>, now: nat) returns (observed: Option<nat>, respond: bool)
      requires Valid()
      modifies peers
      ensures Heard(peers[..], observed, respond) == AfterRx(old(peers[..]), id, buf, now)
    {
      observed, respond := None, false;
      if |buf| < 20 { return; }
      if buf[..8] != PROTO_ASDP { return; }
      var mtype := buf[8];
      if Be16(buf[10..12]) != 0 { return; }
      var sender: LinkId := buf[12..20];
      if sender == id { return; }
      if mtype == 3 {
        EvictPeer(sender);
        return;
      }
      if mtype != 1 && mtype != 2 { return; }
      var i := FindOrAllocPeer(sender);
      if i == peers.Length { return; }
      var p, ok := TlvWalk(buf[20..], HandleEntry, peers[i]);
      peers[i] := p.(expiresAt := now + TTL_US);
      return Some(i), mtype == 1;
    }

    /** link_tick: whether an ALIVE is sent, and the expired peers dropped. */
    method Tick(now: nat, stamp: nat) returns (sent: bool)
      requires Valid() && lastBcast <= now <= stamp
      modifies `lastBcast, `nextBcast, `dirty, peers
      ensures (Sched(), sent) == AfterTick(old(Sched()), now, stamp)
      ensures peers[..] == Prune(old(peers[..]), now)
    {
      sent := false;
      if dirty || now >= nextBcast {
        if now - lastBcast >= MIN_BCAST_US {
          sent := true;
          lastBcast := stamp;
          nextBcast := lastBcast + BCAST_US;
          dirty := false;
        } else {
          nextBcast := lastBcast + MIN_BCAST_US;
        }
      }
      for i := 0 to peers.Length
        invariant (Sched(), sent) == AfterTick(old(Sched()), now, stamp)
        invariant forall j :: 0 <= j < i ==> peers[j] == Prune(old(peers[..]), now)[j]
        invariant forall j :: i <= j < peers.Length ==> peers[j] == old(peers[j])
      {
        if Expired(peers[i], now) {
          peers[i] := ZERO_PEER;
        }
      }
    }

    /** link_broadcast_alive_now. */
    method BroadcastAliveNow(now: nat)
      modifies `nextBcast, `dirty
      ensures Sched() == Requested(old(Sched()), now)
    {
      dirty := true;
      nextBcast := now;
    }

    /** link_set_local_tempo at ghost time g, host time now. The firmware divides by
        the tempo in force and casts to 64 bits. */
    method SetLocalTempo(bpm: real, g: i64, now: nat)
      requires timeline.tempo != 0 && bpm != 0.0 && InI64(BeatsAt(timeline, g)) && InI64(UsPerBeat(bpm))
      modifies `timeline, `nextBcast, `dirty
      ensures timeline == Retempo(old(timeline), bpm, g)
      ensures Sched() == Requested(old(Sched()), now)
    {
      var us := UsPerBeat(bpm);
      var beats := BeatsAt(timeline, g);
      timeline := Timeline(us, beats, g);
      BroadcastAliveNow(now);
    }

    /** link_set_play at ghost time g, host time now. */
    method SetPlay(play: bool, g: i64, now: nat)
      requires timeline.tempo != 0 && InI64(BeatsAt(timeline, g))
      modifies `startstop, `nextBcast, `dirty
      ensures startstop == StartStop(play, BeatsAt(timeline, g), g)
      ensures Sched() == Requested(old(Sched()), now)
    {
      startstop := StartStop(play, BeatsAt(timeline, g), g);
      BroadcastAliveNow(now);
    }
  }
}
