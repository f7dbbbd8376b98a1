/** A sender's captured samples, through its packetiser, an in-order link, and the
    receiver's jitter ring, to the receiver's TDM slot. */
module AudioStream {
  import opened Bytes
  import Link
  import opened JitterRing
  import opened AudioPacket

  /** Both nodes are in one session and the receiver's subscription is to the sender's
      channel. */
  datatype World = World(sender: LinkId, receiver: LinkId, session: LinkId, channel: LinkId, timeline: Link.Timeline)

  /** captured and drained are all the samples the sender has taken from its slot and
      the receiver written to its own. Of the ghost histories, gone are all samples that
      have left the ring, blocks are the samples of the packets on the link, start is
      where the first packet sent begins, and fates says of every packet sent whether it
      got onto the link. */
  datatype Sys = Sys(captured: seq<u16>, lane: Lane, link: seq<seq<byte>>, ring: Ring, drained: seq<u16>,
                     gone: seq<Gone>, blocks: seq<seq<u16>>, start: Option<nat>, fates: seq<bool>)

  /** A sample that has left the ring, to the slot or overwritten. */
  datatype Gone = Gone(v: u16, played: bool)

  /** lost is the fate of the packet a captured sample completes, if it does: on an
      in-order link it makes no difference when a packet is lost. */
  datatype Event = CaptureSample(v: u16, g: int, lost: bool) | Subscribe | Deliver | DrainOne

  ghost predicate Enabled(w: World, s: Sys, e: Event) {
    match e
    case CaptureSample(_, g, _) => w.timeline.tempo != 0 && InI64(PacketBeats(w.timeline, g))
    case Subscribe => s.start.None?
    case Deliver => s.link != [] && Valid(s.ring)
    case DrainOne => Valid(s.ring)
  }

  function PushSamples(r: Ring, samples: seq<u16>): (t: Ring)
    requires |r.buf| == LEN
    ensures |t.buf| == LEN
    decreases |samples|
  {
    if samples == [] then r else PushSamples(Push(r, samples[0]), samples[1..])
  }

  /** What a full ring gives up, oldest first, when samples are pushed. */
  function Overflow(c: seq<u16>, samples: seq<u16>): seq<u16> {
    var n := |c| + |samples|;
    if n <= LEN then [] else (c + samples)[..n - LEN]
  }

  function Marked(c: seq<u16>, played: bool): (g: seq<Gone>)
    ensures |g| == |c|
  {
    seq(|c|, i requires 0 <= i < |c| => Gone(c[i], played))
  }

  function Values(g: seq<Gone>): (c: seq<u16>)
    ensures |c| == |g|
  {
    seq(|g|, i requires 0 <= i < |g| => g[i].v)
  }

  function Played(g: seq<Gone>): seq<u16> {
    if g == [] then [] else (if g[0].played then [g[0].v] else []) + Played(g[1..])
  }

  function Datagram(w: World, count: u64, g: int, samples: seq<u16>): seq<byte>
    requires w.timeline.tempo != 0 && InI64(PacketBeats(w.timeline, g))
  {
    AudioDatagram(w.sender, Info(w.channel, w.session, count, PacketBeats(w.timeline, g), w.timeline.tempo), samples)
  }

  function Next(w: World, s: Sys, e: Event): Sys
    requires Enabled(w, s, e)
  {
    match e
    case CaptureSample(v, g, lost) =>
      var (lane, packet) := Capture(s.lane, v);
      var t := s.(captured := s.captured + [v], lane := lane);
      if packet.None? then t
      else if lost then t.(fates := s.fates + [false])
      else t.(link := s.link + [Datagram(w, packet.value.0, g, packet.value.1)],
              blocks := s.blocks + [packet.value.1], fates := s.fates + [true])
    case Subscribe =>
      s.(lane := s.lane.(subscribed := true),
         start := Some(if |s.lane.pending| <= |s.captured| then |s.captured| - |s.lane.pending| else 0))
    case Deliver =>
      var samples := Taken(s.link[0], w.receiver, w.session, w.channel);
      s.(link := s.link[1..], blocks := if s.blocks == [] then [] else s.blocks[1..],
         ring := PushSamples(s.ring, samples),
         gone := s.gone + Marked(Overflow(Contents(s.ring), samples), false))
    case DrainOne =>
      var (ring, v) := Drain(s.ring);
      if v.None? then s.(ring := ring)
      else s.(ring := ring, drained := s.drained + [v.value], gone := s.gone + [Gone(v.value, true)])
  }

  function Initial(ring: Ring): Sys {
    Sys([], Lane([], 0, false), [], ring, [], [], [], None, [])
  }

  ghost predicate Legal(w: World, s: Sys, es: seq<Event>)
    decreases |es|
  {
    es == [] || (Enabled(w, s, es[0]) && Legal(w, Next(w, s, es[0]), es[1..]))
  }

  function After(w: World, s: Sys, es: seq<Event>): Sys
    requires Legal(w, s, es)
    decreases |es|
  {
    if es == [] then s else After(w, Next(w, s, es[0]), es[1..])
  }

  // ---- blocks ------------------------------------------------------------------------

  function Concat(bs: seq<seq<u16>>): seq<u16> {
    if bs == [] then [] else bs[0] + Concat(bs[1..])
  }

  lemma {:induction false} ConcatSnoc(bs: seq<seq<u16>>, b: seq<u16>)
    ensures Concat(bs + [b]) == Concat(bs) + b
    decreases |bs|
  {
    if bs == [] {
      assert bs + [b] == [b] && [b][1..] == [];
    } else {
      ConcatSnoc(bs[1..], b);
      assert (bs + [b])[1..] == bs[1..] + [b];
    }
  }

  /** A stream with the aligned 64-sample blocks of lost packets cut out. */
  function Keep(s: seq<u16>, fates: seq<bool>): seq<u16>
    requires FRAMES * |fates| <= |s|
    decreases |fates|
  {
    if fates == [] then s
    else (if fates[0] then s[..FRAMES] else []) + Keep(s[FRAMES..], fates[1..])
  }

  /** Past the last packet nothing is cut. */
  lemma {:induction false} KeepTail(s: seq<u16>, fates: seq<bool>, t: seq<u16>)
    requires |s| == FRAMES * |fates|
    ensures Keep(s + t, fates) == Keep(s, fates) + t
    decreases |fates|
  {
    if fates != [] {
      KeepTail(s[FRAMES..], fates[1..], t);
      assert (s + t)[FRAMES..] == s[FRAMES..] + t;
      assert (s + t)[..FRAMES] == s[..FRAMES];
    }
  }

  lemma {:induction false} KeepOneMore(s: seq<u16>, fates: seq<bool>, b: seq<u16>, f: bool)
    requires |s| == FRAMES * |fates| && |b| == FRAMES
    ensures Keep(s + b, fates + [f]) == Keep(s, fates) + if f then b else []
    decreases |fates|
  {
    if fates == [] {
      assert s + b == b && fates + [f] == [f] && [f][1..] == [];
      assert b[..FRAMES] == b && b[FRAMES..] == [];
    } else {
      KeepOneMore(s[FRAMES..], fates[1..], b, f);
      assert (s + b)[FRAMES..] == s[FRAMES..] + b;
      assert (s + b)[..FRAMES] == s[..FRAMES];
      assert (fates + [f])[1..] == fates[1..] + [f];
    }
  }

  lemma {:induction false} KeepAll(s: seq<u16>, fates: seq<bool>)
    requires FRAMES * |fates| <= |s| && forall i :: 0 <= i < |fates| ==> fates[i]
    ensures Keep(s, fates) == s
    decreases |fates|
  {
    if fates != [] {
      KeepAll(s[FRAMES..], fates[1..]);
      assert s == s[..FRAMES] + s[FRAMES..];
    }
  }

  // ---- the invariant --------------------------------------------------------------------

  /** Where the samples of sent packets begin, and where they end. */
  function From(s: Sys): int {
    if s.start.Some? then s.start.value else |s.captured| - |s.lane.pending|
  }

  ghost predicate Flow(s: Sys)
    requires Valid(s.ring)
  {
    var end := |s.captured| - |s.lane.pending|;
    && 0 <= From(s) && From(s) % FRAMES == 0
    && end == From(s) + FRAMES * |s.fates|
    && s.captured[end..] == s.lane.pending
    && Values(s.gone) + Contents(s.ring) + Concat(s.blocks) == Keep(s.captured[From(s)..end], s.fates)
  }

  ghost predicate Inv(w: World, s: Sys) {
    && Valid(s.ring)
    && |s.lane.pending| < FRAMES
    && |s.blocks| == |s.link|
    && (forall i :: 0 <= i < |s.link| ==>
          |s.blocks[i]| == FRAMES && Taken(s.link[i], w.receiver, w.session, w.channel) == s.blocks[i])
    && s.lane.subscribed == s.start.Some?
    && s.drained == Played(s.gone)
    && Flow(s)
  }

  /** A captured sample that completes no packet only waits. */
  lemma WaitFlow(s: Sys, t: Sys, v: u16)
    requires Valid(s.ring) && Flow(s)
    requires t.ring == s.ring && t.gone == s.gone && t.start == s.start && t.captured == s.captured + [v]
    requires t.lane.pending == s.lane.pending + [v] && t.fates == s.fates && t.blocks == s.blocks
    ensures Flow(t)
  {
    hide Contents, Valid, Keep, Concat;
    var end := |s.captured| - |s.lane.pending|;
    assert t.captured[end..] == s.captured[end..] + [v];
    assert t.captured[From(t)..end] == s.captured[From(s)..end];
  }

  /** One that completes a packet nobody subscribes to is forgotten with it. */
  lemma ForgetFlow(s: Sys, t: Sys, v: u16)
    requires Valid(s.ring) && Flow(s) && |s.lane.pending| + 1 == FRAMES && s.start.None? && s.fates == []
    requires t.ring == s.ring && t.gone == s.gone && t.start == s.start && t.captured == s.captured + [v]
    requires t.lane.pending == [] && t.fates == s.fates && t.blocks == s.blocks
    ensures Flow(t)
  {
    hide Contents, Valid, Keep, Concat;
    var end := |s.captured| - |s.lane.pending|;
    assert s.captured[end..end] == t.captured[|t.captured|..] == [];
    assert t.captured[|t.captured|..|t.captured|] == [];
  }

  /** One that completes a packet puts the packet on the link, or has it lost. */
  lemma SendFlow(s: Sys, t: Sys, v: u16, lost: bool)
    requires Valid(s.ring) && Flow(s) && |s.lane.pending| + 1 == FRAMES && s.start.Some?
    requires t.ring == s.ring && t.gone == s.gone && t.start == s.start && t.captured == s.captured + [v]
    requires t.lane.pending == [] && t.fates == s.fates + [!lost]
    requires t.blocks == if lost then s.blocks else s.blocks + [s.lane.pending + [v]]
    ensures Flow(t)
  {
    hide Contents, Valid, Keep, Concat;
    var all, end := s.lane.pending + [v], |s.captured| - |s.lane.pending|;
    var whole, out := s.captured[From(s)..end], Values(s.gone) + Contents(s.ring);
    assert t.captured[From(t)..|t.captured|] == whole + all by {
      assert s.captured == s.captured[..end] + s.lane.pending;
    }
    KeepOneMore(whole, s.fates, all, !lost);
    if !lost {
      ConcatSnoc(s.blocks, all);
      assert out + (Concat(s.blocks) + all) == out + Concat(s.blocks) + all;
    } else {
      assert Keep(whole, s.fates) + [] == Keep(whole, s.fates);
    }
  }

  lemma StepCapture(w: World, s: Sys, e: Event)
    requires Inv(w, s) && Enabled(w, s, e) && e.CaptureSample? && w.sender != w.receiver
    ensures Inv(w, Next(w, s, e))
  {
    hide Contents, Valid, PacketBeats, AudioDatagram, Taken, Datagram, Concat, Keep;
    var t, all := Next(w, s, e), s.lane.pending + [e.v];
    if |all| < FRAMES {
      WaitFlow(s, t, e.v);
    } else if s.start.None? {
      ForgetFlow(s, t, e.v);
    } else {
      SendFlow(s, t, e.v, e.lost);
      SentIsTaken(w, s.lane.sendCount, e.g, all);
    }
    hide Flow;
  }

  lemma SentIsTaken(w: World, count: u64, g: int, samples: seq<u16>)
    requires w.timeline.tempo != 0 && InI64(PacketBeats(w.timeline, g)) && |samples| == FRAMES
    requires w.sender != w.receiver
    ensures Taken(Datagram(w, count, g, samples), w.receiver, w.session, w.channel) == samples
  {
    hide AudioDatagram, Taken, PacketBeats;
    DatagramTaken(w.sender, Info(w.channel, w.session, count, PacketBeats(w.timeline, g), w.timeline.tempo), samples,
                  w.receiver, w.session, w.channel);
  }

  lemma {:induction false} PushSamplesRefines(r: Ring, samples: seq<u16>)
    requires Valid(r)
    ensures Valid(PushSamples(r, samples)) && Contents(PushSamples(r, samples)) == PushAll(Contents(r), samples)
    decreases |samples|
  {
    hide Contents, Newest, Push;
    if samples != [] {
      PushRefines(r, samples[0]);
      PushSamplesRefines(Push(r, samples[0]), samples[1..]);
    }
  }

  lemma NewestOfNewest(a: seq<u16>, b: seq<u16>)
    ensures Newest(Newest(a) + b) == Newest(a + b)
  {
    if |a| > LEN {
      var cut := |a| - LEN;
      var t := a[cut..] + b;
      assert (a + b)[cut..] == t;
      assert (a + b)[cut + |b|..] == t[|b|..];
    }
  }

  lemma {:induction false} PushAllIsNewest(c: seq<u16>, samples: seq<u16>)
    requires |c| <= LEN
    ensures PushAll(c, samples) == Newest(c + samples)
    decreases |samples|
  {
    if samples == [] {
      assert c + samples == c;
    } else {
      var x, rest := [samples[0]], samples[1..];
      assert PushAll(c, samples) == PushAll(Newest(c + x), rest);
      PushAllIsNewest(Newest(c + x), rest);
      hide PushAll, Newest;
      NewestOfNewest(c + x, rest);
      assert c + x + rest == c + samples;
    }
  }

  /** A push onto a ring loses the oldest samples, and only as many as do not fit. */
  lemma PushAllSplits(c: seq<u16>, samples: seq<u16>)
    requires |c| <= LEN && |samples| <= LEN
    ensures Overflow(c, samples) + PushAll(c, samples) == c + samples
  {
    PushAllIsNewest(c, samples);
    hide PushAll;
  }

  lemma {:induction false} PlayedAppend(g: seq<Gone>, h: seq<Gone>)
    ensures Played(g + h) == Played(g) + Played(h)
    decreases |g|
  {
    if g == [] {
      assert g + h == h;
    } else {
      PlayedAppend(g[1..], h);
      assert (g + h)[1..] == g[1..] + h;
    }
  }

  lemma {:induction false} NonePlayed(c: seq<u16>)
    ensures Played(Marked(c, false)) == []
    decreases |c|
  {
    if c != [] {
      NonePlayed(c[1..]);
      assert Marked(c, false)[1..] == Marked(c[1..], false);
    }
  }

  lemma OneMoreGone(g: seq<Gone>, v: u16)
    ensures Values(g + [Gone(v, true)]) == Values(g) + [v] && Played(g + [Gone(v, true)]) == Played(g) + [v]
  {
    PlayedAppend(g, [Gone(v, true)]);
    assert [Gone(v, true)][1..] == [];
  }

  lemma HeadMoves(s: seq<u16>, c: seq<u16>)
    requires c != []
    ensures s + c == s + [c[0]] + c[1..]
  {
    assert c == [c[0]] + c[1..];
  }

  lemma {:induction false} AllPlayed(g: seq<Gone>)
    requires forall i :: 0 <= i < |g| ==> g[i].played
    ensures Played(g) == Values(g)
    decreases |g|
  {
    if g != [] {
      AllPlayed(g[1..]);
      assert Values(g) == [g[0].v] + Values(g[1..]);
    }
  }

  lemma StepDeliver(w: World, s: Sys, e: Event)
    requires Inv(w, s) && Enabled(w, s, e) && e.Deliver?
    ensures Inv(w, Next(w, s, e))
  {
    hide PushAll, Push, Taken, PushSamples, Level, Keep, Played, Contents, Overflow, Marked;
    var c, b := Contents(s.ring), s.blocks[0];
    PushSamplesRefines(s.ring, b);
    RingFits(s.ring);
    PushAllSplits(c, b);
    var o := Overflow(c, b);
    PlayedAppend(s.gone, Marked(o, false));
    NonePlayed(o);
    ValuesAppend(s.gone, o);
    hide Values;
    var g, kept, rest := Values(s.gone), PushAll(c, b), Concat(s.blocks[1..]);
    assert g + c + (b + rest) == g + (c + b) + rest == g + (o + kept) + rest == g + o + kept + rest;
  }

  lemma StepDrain(w: World, s: Sys, e: Event)
    requires Inv(w, s) && Enabled(w, s, e) && e.DrainOne?
    ensures Inv(w, Next(w, s, e))
  {
    hide Drain, Taken, Level, Keep, Played, Concat;
    var c := Contents(s.ring);
    DrainRefines(s.ring);
    hide Contents, Valid, Values;
    if c != [] {
      OneMoreGone(s.gone, c[0]);
      HeadMoves(Values(s.gone), c);
    }
  }

  lemma RingFits(r: Ring)
    requires Valid(r)
    ensures |Contents(r)| <= LEN
  {
  }

  lemma ValuesAppend(g: seq<Gone>, c: seq<u16>)
    ensures Values(g + Marked(c, false)) == Values(g) + c
  {
  }

  lemma {:induction false} RunKeepsInv(w: World, s: Sys, es: seq<Event>)
    requires Inv(w, s) && Legal(w, s, es) && w.sender != w.receiver
    ensures Inv(w, After(w, s, es))
    decreases |es|
  {
    if es != [] {
      match es[0] {
        case CaptureSample(_, _, _) => StepCapture(w, s, es[0]);
        case Subscribe => StepSubscribe(w, s, es[0]);
        case Deliver => StepDeliver(w, s, es[0]);
        case DrainOne => StepDrain(w, s, es[0]);
      }
      hide Inv, Next, Enabled;
      RunKeepsInv(w, Next(w, s, es[0]), es[1..]);
    }
  }

  lemma StepSubscribe(w: World, s: Sys, e: Event)
    requires Inv(w, s) && Enabled(w, s, e) && e.Subscribe?
    ensures Inv(w, Next(w, s, e))
  {
    hide Contents, Valid, Taken, Concat;
  }

  // ---- the theorems ----------------------------------------------------------------------

  /** Audio end to end, over every interleaving of capture, packets and draining: what
      has left the receiver's ring, what waits in it, the packets on the link and the
      sender's partial buffer are together exactly the sender's captured samples from
      the start of the first packet, with one aligned block of 64 cut out per lost packet
      and nothing else. The receiver's slot carried what left the ring, less what was
      overwritten: whenever a packet came in, the oldest samples beyond 1024. */
  lemma StreamConserved(w: World, ring: Ring, es: seq<Event>)
    requires Valid(ring) && Contents(ring) == [] && w.sender != w.receiver
    requires Legal(w, Initial(ring), es)
    ensures var s := After(w, Initial(ring), es);
            s.start.Some? ==>
              && Valid(s.ring)
              && s.start.value % FRAMES == 0 && s.start.value + FRAMES * |s.fates| <= |s.captured|
              && s.drained == Played(s.gone)
              && Values(s.gone) + Contents(s.ring) + Concat(s.blocks) + s.lane.pending
                 == Keep(s.captured[s.start.value..], s.fates)
  {
    hide Contents, Level, Keep, Next, Enabled, Taken;
    InitialInv(w, ring);
    RunKeepsInv(w, Initial(ring), es);
    hide Legal;
    var s := After(w, Initial(ring), es);
    if s.start.Some? {
      var end := |s.captured| - |s.lane.pending|;
      var whole := s.captured[s.start.value..end];
      KeepTail(whole, s.fates, s.lane.pending);
      assert s.captured[s.start.value..] == whole + s.lane.pending;
    }
  }

  lemma InitialInv(w: World, ring: Ring)
    requires Valid(ring) && Contents(ring) == []
    ensures Inv(w, Initial(ring))
  {
    hide Contents, Level;
  }

  /** A captured sample that completes a packet sends it with the number of packets sent before,
      lost or not. */
  lemma PacketIsNumbered(w: World, s: Sys, e: Event)
    requires Enabled(w, s, e) && s.lane.sendCount == |s.fates| % 0x1_0000_0000_0000_0000
    ensures var t := Next(w, s, e); t.lane.sendCount == |t.fates| % 0x1_0000_0000_0000_0000
    ensures var t := Next(w, s, e);
            e.CaptureSample? && |t.link| > |s.link| ==>
              t.link == s.link + [Datagram(w, |s.fates| % 0x1_0000_0000_0000_0000, e.g, s.lane.pending + [e.v])]
  {
    hide Contents, Valid, Drain, Taken, PushSamples, Datagram, PacketBeats, Overflow, Marked;
  }

  /** ... in every run. */
  lemma {:induction false} PacketsAreNumbered(w: World, s: Sys, es: seq<Event>)
    requires Legal(w, s, es) && s.lane.sendCount == |s.fates| % 0x1_0000_0000_0000_0000
    ensures var t := After(w, s, es); t.lane.sendCount == |t.fates| % 0x1_0000_0000_0000_0000
    decreases |es|
  {
    hide Next, Enabled;
    if es != [] {
      PacketIsNumbered(w, s, es[0]);
      PacketsAreNumbered(w, Next(w, s, es[0]), es[1..]);
    }
  }

  /** ... so over a lossless link and without overflow the receiver writes exactly a prefix of what the
      sender captured from there on. */
  lemma LosslessPrefix(w: World, ring: Ring, es: seq<Event>)
    requires Valid(ring) && Contents(ring) == [] && w.sender != w.receiver
    requires Legal(w, Initial(ring), es)
    requires var s := After(w, Initial(ring), es);
             && s.start.Some? && (forall i :: 0 <= i < |s.fates| ==> s.fates[i])
             && forall i :: 0 <= i < |s.gone| ==> s.gone[i].played
    ensures var s := After(w, Initial(ring), es);
            s.start.value <= |s.captured| && s.drained <= s.captured[s.start.value..]
  {
    StreamConserved(w, ring, es);
    hide Level, Contents, Next, Enabled, After;
    var s := After(w, Initial(ring), es);
    KeepAll(s.captured[s.start.value..], s.fates);
    AllPlayed(s.gone);
    hide Keep, Values, Played;
    var g, rest := Values(s.gone), Contents(s.ring) + Concat(s.blocks) + s.lane.pending;
    assert g + Contents(s.ring) + Concat(s.blocks) + s.lane.pending == g + rest;
  }

  /** The first packet sent starts at the packet boundary at or before the subscription,
      which is the subscription itself if and only if 64 divides the number of samples
      captured by then. */
  lemma StartIsAligned(w: World, ring: Ring, es: seq<Event>)
    requires Valid(ring) && Contents(ring) == [] && w.sender != w.receiver
    requires Legal(w, Initial(ring), es) && After(w, Initial(ring), es).start.None?
    ensures var s := After(w, Initial(ring), es);
            var first := Next(w, s, Subscribe).start;
            && first == Some(FRAMES * (|s.captured| / FRAMES))
            && (first.value >= |s.captured| <==> |s.captured| % FRAMES == 0)
  {
    hide Contents, Level, Keep, Taken;
    InitialInv(w, ring);
    RunKeepsInv(w, Initial(ring), es);
    hide Legal, After, Values, Played, Concat;
    var s := After(w, Initial(ring), es);
    LastBoundary(|s.captured|, |s.lane.pending|);
  }

  lemma LastBoundary(captured: nat, pending: nat)
    requires pending <= captured && pending < FRAMES && (captured - pending) % FRAMES == 0
    ensures captured - pending == FRAMES * (captured / FRAMES)
    ensures FRAMES * (captured / FRAMES) >= captured <==> captured % FRAMES == 0
  {
  }

  /** A subscription after one captured sample: the first packet begins with that sample. */
  lemma OlderThanSubscription(w: World, ring: Ring, v: u16, g: int)
    requires Valid(ring) && Contents(ring) == [] && w.sender != w.receiver
    requires w.timeline.tempo != 0 && InI64(PacketBeats(w.timeline, g))
    ensures var es := [CaptureSample(v, g, false)];
            && Legal(w, Initial(ring), es) && After(w, Initial(ring), es).captured == [v]
            && After(w, Initial(ring), es).start.None?
            && Next(w, After(w, Initial(ring), es), Subscribe).start == Some(0)
  {
    hide Contents, Level, Keep, Taken, PacketBeats;
    var es, s := [CaptureSample(v, g, false)], Next(w, Initial(ring), CaptureSample(v, g, false));
    assert es[1..] == [] && Legal(w, s, es[1..]) && After(w, s, es[1..]) == s;
    StartIsAligned(w, ring, es);
  }

  lemma {:induction false} StartStays(w: World, s: Sys, es: seq<Event>)
    requires s.start.Some? && Legal(w, s, es)
    ensures After(w, s, es).start == s.start && s.captured <= After(w, s, es).captured
    decreases |es|
  {
    hide Contents, Valid, Push, Drain, Taken, PushSamples, Datagram;
    if es != [] {
      StartStays(w, Next(w, s, es[0]), es[1..]);
    }
  }

  /** Every sample the receiver plays was captured after the subscription if and only if 64
      divides the number of samples captured before it: es leads to the subscription, fs on
      to a state with something played, without loss or overflow. The first sample played
      is the one captured at the last multiple of 64. */
  lemma PlaysOnlyNewSamplesIff(w: World, ring: Ring, es: seq<Event>, fs: seq<Event>)
    requires Valid(ring) && Contents(ring) == [] && w.sender != w.receiver
    requires Legal(w, Initial(ring), es) && After(w, Initial(ring), es).start.None?
    requires Legal(w, Initial(ring), es + [Subscribe] + fs)
    requires var s := After(w, Initial(ring), es + [Subscribe] + fs);
             && s.drained != [] && (forall i :: 0 <= i < |s.fates| ==> s.fates[i])
             && forall i :: 0 <= i < |s.gone| ==> s.gone[i].played
    ensures var c := |After(w, Initial(ring), es).captured|;
            var s := After(w, Initial(ring), es + [Subscribe] + fs);
            var first := FRAMES * (c / FRAMES);
            && first + |s.drained| <= |s.captured|
            && s.drained == s.captured[first..first + |s.drained|]
            && (first >= c <==> c % FRAMES == 0)
  {
    hide Contents, Level, Keep, Taken, Next, Enabled;
    var s0 := After(w, Initial(ring), es);
    StartIsAligned(w, ring, es);
    assert es + [Subscribe] + fs == es + ([Subscribe] + fs);
    LegalSplit(w, Initial(ring), es, [Subscribe] + fs);
    assert ([Subscribe] + fs)[0] == Subscribe && ([Subscribe] + fs)[1..] == fs;
    StartStays(w, Next(w, s0, Subscribe), fs);
    LosslessPrefix(w, ring, es + [Subscribe] + fs);
    hide Legal, After;
    var s := After(w, Initial(ring), es + [Subscribe] + fs);
    var first := FRAMES * (|s0.captured| / FRAMES);
    assert s.captured[first..][..|s.drained|] == s.captured[first..first + |s.drained|];
  }

  lemma {:induction false} LegalSplit(w: World, s: Sys, es: seq<Event>, fs: seq<Event>)
    requires Legal(w, s, es + fs)
    ensures Legal(w, s, es) && Legal(w, After(w, s, es), fs)
    ensures After(w, s, es + fs) == After(w, After(w, s, es), fs)
    decreases |es|
  {
    hide Next, Enabled;
    if es == [] {
      assert es + fs == fs;
    } else {
      assert (es + fs)[0] == es[0] && (es + fs)[1..] == es[1..] + fs;
      LegalSplit(w, Next(w, s, es[0]), es[1..], fs);
    }
  }
}
