/** What discovery messages mean: a node's state survives the wire, and neither the
    order of the payload's entries nor unknown entries among them matter. */
module Discovery {
  import opened Bytes
  import opened SeqTools
  import opened Tlv
  import opened Link

  lemma FeedDrop<C>(cb: Callback<C>, ctx: C, es: seq<Entry>, k: nat)
    requires k < |es| && cb(ctx, es[k]).1
    ensures Feed(cb, ctx, es[k..]) == Feed(cb, cb(ctx, es[k]).0, es[k + 1..])
  {
    assert es[k..][1..] == es[k + 1..];
  }

  /** A peer entry that holds exactly what a node tells about itself. */
  function Mirror(p: Peer, self: Self): Peer {
    p.(timeline := self.timeline, sessionId := self.session, startstop := self.startstop,
       mep4 := End4(self.ipv4, PORT), mep6 := End6(self.ipv6, PORT, true),
       aep4 := End4(self.ipv4, PORT), aep6 := End6(self.ipv6, PORT, true))
  }

  lemma FeedState(p: Peer, self: Self)
    ensures Feed(HandleEntry, p, StateEntries(self)) == (Mirror(p, self), true)
  {
    hide Feed, StateEntries;
    FeedTimelineSessionTransport(p, self);
    FeedEndpoints(p.(timeline := self.timeline, sessionId := self.session, startstop := self.startstop), self);
  }

  lemma FeedTimelineSessionTransport(p: Peer, self: Self)
    ensures Feed(HandleEntry, p, StateEntries(self))
         == Feed(HandleEntry, p.(timeline := self.timeline, sessionId := self.session, startstop := self.startstop),
                 StateEntries(self)[3..])
  {
    hide PutTimeline, PutStartStop, PutEnd4, PutEnd6, Feed;
    var es := StateEntries(self);
    var p1 := p.(timeline := self.timeline);
    var p2 := p1.(sessionId := self.session);
    FeedDrop(HandleEntry, p, es, 0);
    FeedDrop(HandleEntry, p1, es, 1);
    FeedDrop(HandleEntry, p2, es, 2);
    assert es[0..] == es;
  }

  lemma FeedEndpoints(p: Peer, self: Self)
    ensures Feed(HandleEntry, p, StateEntries(self)[3..])
         == (p.(mep4 := End4(self.ipv4, PORT), mep6 := End6(self.ipv6, PORT, true),
                aep4 := End4(self.ipv4, PORT), aep6 := End6(self.ipv6, PORT, true)), true)
  {
    hide PutTimeline, PutStartStop, PutEnd4, PutEnd6, Feed;
    var es := StateEntries(self);
    var p1 := p.(mep4 := End4(self.ipv4, PORT));
    var p2 := p1.(mep6 := End6(self.ipv6, PORT, true));
    var p3 := p2.(aep4 := End4(self.ipv4, PORT));
    FeedDrop(HandleEntry, p, es, 3);
    FeedDrop(HandleEntry, p1, es, 4);
    FeedDrop(HandleEntry, p2, es, 5);
    FeedDrop(HandleEntry, p3, es, 6);
    assert es[7..] == [];
    FeedNothing(HandleEntry, p3.(aep6 := End6(self.ipv6, PORT, true)));
  }

  lemma FeedNothing<C>(cb: Callback<C>, ctx: C)
    ensures Feed(cb, ctx, []) == (ctx, true)
  {
  }

  lemma ClassifyState(self: Self, mtype: byte, selfId: LinkId)
    requires (mtype == 1 || mtype == 2) && selfId != self.id
    ensures Classify(StateMessage(self, mtype), selfId) == State(self.id, mtype == 1)
    ensures StateMessage(self, mtype)[20..] == Print(StateEntries(self))
  {
    hide Print;
    var buf := StateMessage(self, mtype);
    assert buf[..8] == PROTO_ASDP && buf[8] == mtype;
    assert buf[10..12] == [0, 0] && buf[12..20] == self.id;
  }

  predicate CanHold(peers: seq<Peer>, id: LinkId) {
    exists i :: 0 <= i < |peers| && (!peers[i].inUse || peers[i].nodeId == id)
  }

  /** The slot a sender gets: its own, or a free one when it has none. */
  lemma SlotOfSender(peers: seq<Peer>, id: LinkId)
    ensures var (i, claimed) := FindOrAlloc(peers, id);
            if CanHold(peers, id) then
              && i < |peers|
              && (if peers[i].inUse then peers[i].nodeId == id && claimed == peers
                  else
                    && claimed == peers[i := ZERO_PEER.(inUse := true, nodeId := id)]
                    && forall j :: 0 <= j < |peers| ==> !(peers[j].inUse && peers[j].nodeId == id))
            else i == |peers|
  {
    var k := First(peers, IsPeer(id));
    assert forall j :: 0 <= j < k ==> !IsPeer(id)(peers[j]);
    var f := First(peers, IsFree());
    assert forall j :: 0 <= j < f ==> !IsFree()(peers[j]);
  }

  lemma WalkState(p: Peer, self: Self)
    ensures Walk(Print(StateEntries(self)), HandleEntry, p) == (Mirror(p, self), true)
  {
    var es := StateEntries(self);
    hide Print, Walk, StateEntries, HandleEntry;
    assert Print(es) + [] == Print(es);
    WalkFeedsPrinted(es, [], HandleEntry, p);
    FeedState(p, self);
  }

  /** The discovery round trip, for all 64-bit values: unless its table is full, a
      node that hears another's ALIVE or RESPONSE has, in the slot of that sender
      (the one it had, or one that was free), exactly the sender's timeline, session,
      start/stop state and endpoints; every other slot is as it was; and an ALIVE, not
      a RESPONSE, is answered. */
  lemma StateRoundTrip(peers: seq<Peer>, selfId: LinkId, self: Self, mtype: byte, now: nat)
    requires (mtype == 1 || mtype == 2) && selfId != self.id
    ensures var h := AfterRx(peers, selfId, StateMessage(self, mtype), now);
            if CanHold(peers, self.id) then
              && h.observed.Some? && h.observed.value < |peers| == |h.peers|
              && h.respond == (mtype == 1)
              && var i := h.observed.value;
              && (forall j :: 0 <= j < |peers| && j != i ==> h.peers[j] == peers[j])
              && (if peers[i].inUse then peers[i].nodeId == self.id
                  else forall j :: 0 <= j < |peers| ==> !(peers[j].inUse && peers[j].nodeId == self.id))
              && (var before := if peers[i].inUse then peers[i] else ZERO_PEER.(inUse := true, nodeId := self.id);
                  h.peers[i] == Mirror(before, self).(expiresAt := now + 5_000_000))
            else h == Heard(peers, None, false)
  {
    SlotOfSender(peers, self.id);
    HeardState(peers, selfId, self, mtype, now);
    hide AfterRx, FindOrAlloc, Mirror, StateMessage;
  }

  lemma HeardState(peers: seq<Peer>, selfId: LinkId, self: Self, mtype: byte, now: nat)
    requires (mtype == 1 || mtype == 2) && selfId != self.id
    ensures var (i, claimed) := FindOrAlloc(peers, self.id);
            AfterRx(peers, selfId, StateMessage(self, mtype), now)
              == if i == |peers| then Heard(peers, None, false)
                 else Heard(claimed[i := Mirror(claimed[i], self).(expiresAt := now + TTL_US)], Some(i), mtype == 1)
  {
    ClassifyState(self, mtype, selfId);
    AfterState(peers, selfId, StateMessage(self, mtype), now, self.id, mtype == 1);
    hide AfterRx, Print, Walk, StateMessage, StateEntries, HandleEntry, Classify, FindOrAlloc, Mirror;
    var (i, claimed) := FindOrAlloc(peers, self.id);
    if i < |peers| {
      WalkState(claimed[i], self);
    }
  }

  lemma AfterState(peers: seq<Peer>, selfId: LinkId, buf: seq<byte>, now: nat, id: LinkId, alive: bool)
    requires |buf| >= 20 && Classify(buf, selfId) == State(id, alive)
    ensures var (i, claimed) := FindOrAlloc(peers, id);
            AfterRx(peers, selfId, buf, now)
              == if i == |peers| then Heard(peers, None, false)
                 else Heard(claimed[i := Walk(buf[20..], HandleEntry, claimed[i]).0.(expiresAt := now + TTL_US)],
                            Some(i), alive)
  {
    hide Walk, HandleEntry, Classify, FindOrAlloc;
  }

  // ---- order and unknown keys ------------------------------------------------------

  predicate Known(key: u32) {
    || key == KEY_TMLN || key == KEY_SESS || key == KEY_STST
    || key == KEY_MEP4 || key == KEY_AEP4 || key == KEY_MEP6 || key == KEY_AEP6
  }

  function SizeOf(key: u32): nat {
    if key == KEY_TMLN then 24
    else if key == KEY_SESS then 8
    else if key == KEY_STST then 17
    else if key == KEY_MEP4 || key == KEY_AEP4 then 6
    else 18
  }

  ghost predicate WellSized(es: seq<Entry>) {
    forall i :: 0 <= i < |es| && Known(es[i].key) ==> |es[i].value| == SizeOf(es[i].key)
  }

  /** An entry with a known key and the wrong size is refused and changes nothing; the walk
      stops there. */
  lemma WrongSizeRefused(p: Peer, e: Entry)
    requires Known(e.key) && |e.value| != SizeOf(e.key)
    ensures HandleEntry(p, e) == (p, false)
  {
  }

  /** Any byte but 0 means that the transport is running. */
  lemma AnyByteIsPlaying(s: seq<byte>)
    requires |s| == 17
    ensures GetStartStop(s).isPlaying <==> s[0] != 0
  {
  }

  /** The value of the last entry with a key. */
  function Latest(es: seq<Entry>, key: u32): (v: Option<seq<byte>>)
    ensures v.Some? ==> |v.value| < 0x1_0000_0000 && Entry(key, v.value) in es
    ensures v.None? ==> forall e :: e in es ==> e.key != key
  {
    if es == [] then None
    else
      var last := es[|es| - 1];
      if last.key == key then Some(last.value) else Latest(es[..|es| - 1], key)
  }

  /** A field taken from an entry's value when there is one of the right size. */
  predicate Has(v: Option<seq<byte>>, n: nat) {
    v.Some? && |v.value| == n
  }

  /** A peer entry with every field taken from the last entry that sets it. */
  function Assemble(p: Peer, es: seq<Entry>): Peer {
        p.(timeline := if Has(Latest(es, KEY_TMLN), 24) then GetTimeline(Latest(es, KEY_TMLN).value) else p.timeline,
       sessionId := if Has(Latest(es, KEY_SESS), 8) then Latest(es, KEY_SESS).value else p.sessionId,
       startstop := if Has(Latest(es, KEY_STST), 17) then GetStartStop(Latest(es, KEY_STST).value) else p.startstop,
       mep4 := if Has(Latest(es, KEY_MEP4), 6) then GetEnd4(Latest(es, KEY_MEP4).value) else p.mep4,
       aep4 := if Has(Latest(es, KEY_AEP4), 6) then GetEnd4(Latest(es, KEY_AEP4).value) else p.aep4,
       mep6 := if Has(Latest(es, KEY_MEP6), 18) then GetEnd6(Latest(es, KEY_MEP6).value) else p.mep6,
       aep6 := if Has(Latest(es, KEY_AEP6), 18) then GetEnd6(Latest(es, KEY_AEP6).value) else p.aep6)
  }

  lemma {:induction false} FeedSnoc<C>(cb: Callback<C>, ctx: C, es: seq<Entry>, e: Entry)
    ensures Feed(cb, ctx, es + [e])
         == if Feed(cb, ctx, es).1 then cb(Feed(cb, ctx, es).0, e) else Feed(cb, ctx, es)
    decreases |es|
  {
    if es == [] {
      assert es + [e] == [e] && [e][1..] == [];
    } else {
      assert (es + [e])[1..] == es[1..] + [e];
      if cb(ctx, es[0]).1 {
        FeedSnoc(cb, cb(ctx, es[0]).0, es[1..], e);
      }
    }
  }

  /** The walk's result is the assembly: the last entry of each key wins. */
  lemma {:induction false} FeedAssembles(p: Peer, es: seq<Entry>)
    requires WellSized(es)
    ensures Feed(HandleEntry, p, es) == (Assemble(p, es), true)
    decreases |es|
  {
    if es != [] {
      hide Feed, HandleEntry, Assemble;
      var rest, e := es[..|es| - 1], es[|es| - 1];
      FeedAssembles(p, rest);
      assert es == rest + [e];
      FeedSnoc(HandleEntry, p, rest, e);
      AssembleStep(p, es);
    }
  }

  lemma AssembleStep(p: Peer, es: seq<Entry>)
    requires es != []
    requires var e := es[|es| - 1]; Known(e.key) ==> |e.value| == SizeOf(e.key)
    ensures HandleEntry(Assemble(p, es[..|es| - 1]), es[|es| - 1]) == (Assemble(p, es), true)
  {
    var rest, e := es[..|es| - 1], es[|es| - 1];
    forall k: u32
      ensures Latest(es, k) == if e.key == k then Some(e.value) else Latest(rest, k)
    {
    }
    hide Latest, GetTimeline, GetStartStop, GetEnd4, GetEnd6;
  }

  /** No two entries with the same key. */
  ghost predicate DistinctKeys(es: seq<Entry>) {
    forall i, j :: 0 <= i < j < |es| ==> es[i].key != es[j].key
  }

  lemma LatestOfDistinct(es: seq<Entry>, e: Entry)
    requires DistinctKeys(es) && e in es
    ensures Latest(es, e.key) == Some(e.value)
  {
    var v := Latest(es, e.key);
    assert v.Some?;
    var f: Entry := Entry(e.key, v.value);
    var i :| 0 <= i < |es| && es[i] == e;
    var j :| 0 <= j < |es| && es[j] == f;
    if i < j { assert es[i].key != es[j].key; }
    if j < i { assert es[j].key != es[i].key; }
  }

  lemma SameEntriesSameLatest(es: seq<Entry>, fs: seq<Entry>, key: u32)
    requires DistinctKeys(es) && multiset(es) == multiset(fs)
    ensures Latest(es, key) == Latest(fs, key)
  {
    SameMembers(es, fs);
    var v := Latest(fs, key);
    if v.Some? {
      LatestOfDistinct(es, Entry(key, v.value));
    }
  }

  lemma SameMembers(es: seq<Entry>, fs: seq<Entry>)
    requires multiset(es) == multiset(fs)
    ensures forall e :: e in es <==> e in fs
  {
    assert forall e :: e in es <==> e in multiset(es);
    assert forall e :: e in fs <==> e in multiset(fs);
  }

  lemma KeepKeeps(known: u32 -> bool, es: seq<Entry>)
    ensures forall e :: e in Keep(known, es) ==> e in es && known(e.key)
  {
    if es != [] {
      KeepKeeps(known, es[1..]);
    }
  }

  /** Entry order and unknown entries are irrelevant: two payloads whose entries with
      known keys (distinct, of the right sizes) are the same up to order leave a peer
      entry in the same state, and both are accepted. */
  lemma OrderAndUnknownKeysIrrelevant(p: Peer, es: seq<Entry>, fs: seq<Entry>)
    requires WellSized(es) && DistinctKeys(Keep(Known, es))
    requires multiset(Keep(Known, es)) == multiset(Keep(Known, fs))
    ensures Walk(Print(es), HandleEntry, p) == Walk(Print(fs), HandleEntry, p)
    ensures Walk(Print(es), HandleEntry, p).1
  {
    hide Walk, Feed, Print, HandleEntry;
    var ks, ls := Keep(Known, es), Keep(Known, fs);
    assert Print(es) + [] == Print(es) && Print(fs) + [] == Print(fs);
    WalkFeedsPrinted(es, [], HandleEntry, p);
    WalkFeedsPrinted(fs, [], HandleEntry, p);
    SkipsUnknown(p, es);
    SkipsUnknown(p, fs);
    KeepKeeps(Known, es);
    SameMembers(ks, ls);
    SizedMembers(es, ks);
    SizedMembers(ks, ls);
    FeedAssembles(p, ks);
    FeedAssembles(p, ls);
    SameAssembly(p, ks, ls);
  }

  lemma SizedMembers(es: seq<Entry>, fs: seq<Entry>)
    requires WellSized(es) && forall f :: f in fs ==> f in es
    ensures WellSized(fs)
  {
    forall i | 0 <= i < |fs| && Known(fs[i].key)
      ensures |fs[i].value| == SizeOf(fs[i].key)
    {
      assert fs[i] in fs;
      var j :| 0 <= j < |es| && es[j] == fs[i];
    }
  }

  lemma SkipsUnknown(p: Peer, es: seq<Entry>)
    ensures Feed(HandleEntry, p, es) == Feed(HandleEntry, p, Keep(Known, es))
  {
    hide Feed;
    FeedSkipsUnknown(HandleEntry, p, es, Known);
  }

  lemma SameAssembly(p: Peer, es: seq<Entry>, fs: seq<Entry>)
    requires DistinctKeys(es) && multiset(es) == multiset(fs)
    ensures Assemble(p, es) == Assemble(p, fs)
  {
    forall k: u32
      ensures Latest(es, k) == Latest(fs, k)
    {
      SameEntriesSameLatest(es, fs, k);
    }
    hide Latest, GetTimeline, GetStartStop, GetEnd4, GetEnd6;
  }
}
