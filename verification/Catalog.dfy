/** Peer announcements of link_audio.c: the encoder, which nests a vector of channels
    in a TLV entry, and the decoder, which keeps a catalog of remote channels. */
module Catalog {
  import opened Bytes
  import opened SeqTools
  import opened Tlv
  import AudioPacket
  import Link

  const MAX_REMOTE := 64
  const NAME_MAX := 32
  const MAX_MSG := 1200

  /** A channel as announced: its name, without the terminating NUL, and its id. */
  datatype Channel = Channel(name: seq<byte>, id: LinkId)

  /** link_audio_remote_t; the name is its 32 bytes, zero-padded. */
  datatype Remote = Remote(inUse: bool, peer: LinkId, id: LinkId, name: seq<byte>, addr: u32, port: u16, lastSeen: nat)

  const EMPTY := Remote(false, ZERO_ID, ZERO_ID, [], 0, 0, 0)

  /** Who an announcement is from, and when it was heard. */
  datatype Source = Source(peer: LinkId, addr: u32, port: u16, now: nat)

  // ---- the catalog -----------------------------------------------------------------

  function IsChannel(id: LinkId): Remote -> bool {
    (r: Remote) => r.inUse && r.id == id
  }

  function IsFree(): Remote -> bool {
    (r: Remote) => !r.inUse
  }

  /** At most 31 bytes of the name, padded with NULs to 32. */
  function Stored(name: seq<byte>): (s: seq<byte>)
    ensures |s| == 32
    ensures forall i :: 0 <= i < 32 ==> s[i] == if i < |name| && i < 31 then name[i] else 0
  {
    var n := if |name| < NAME_MAX then |name| else NAME_MAX - 1;
    name[..n] + seq(NAME_MAX - n, _ => 0)
  }

  /** One announced channel: an entry with its id is refreshed, else a free slot is
      claimed, else it is skipped. */
  function Upsert(cat: seq<Remote>, src: Source, c: Channel): (r: seq<Remote>)
    ensures |r| == |cat|
  {
    var i, f := First(cat, IsChannel(c.id)), First(cat, IsFree());
    if i < |cat| then
      cat[i := cat[i].(name := Stored(c.name), addr := src.addr, port := src.port, lastSeen := src.now)]
    else if f < |cat| then
      cat[f := Remote(true, src.peer, c.id, Stored(c.name), src.addr, src.port, src.now)]
    else cat
  }

  function UpsertAll(cat: seq<Remote>, src: Source, cs: seq<Channel>): (r: seq<Remote>)
    ensures |r| == |cat|
    decreases |cs|
  {
    if cs == [] then cat else UpsertAll(Upsert(cat, src, cs[0]), src, cs[1..])
  }

  /** The channels of a vector entry, one after another, stopping where it breaks off. */
  function TakeChannels(cat: seq<Remote>, src: Source, v: seq<byte>, count: nat): (r: (seq<Remote>, bool))
    ensures |r.0| == |cat|
    decreases count
  {
    if count == 0 then (cat, true)
    else if |v| < 4 then (cat, false)
    else
      var n: nat := Be32(v[..4]);
      if |v| - 4 < n + 8 then (cat, false)
      else
        var c := Channel(v[4..4 + n], v[4 + n..12 + n]);
        TakeChannels(Upsert(cat, src, c), src, v[12 + n..], count - 1)
  }

  /** The context of ann_handler, the catalog it updates included. */
  datatype Ann = Ann(remote: seq<Remote>, src: Source, ping: Option<u64>, peerName: seq<byte>)

  /** ann_handler. */
  function AnnHandler(a: Ann, e: Entry): (Ann, bool) {
    var v, n := e.value, |e.value|;
    if e.key == KEY_HT then
      if n != 8 then (a, false) else (a.(ping := Some(Be64(v))), true)
    else if e.key == KEY_PI then
      if n < 4 || n < 4 + Be32(v[..4]) then (a, false)
      else (a.(peerName := Stored(v[4..4 + Be32(v[..4])])), true)
    else if e.key == KEY_SESS then (a, n == 8)
    else if e.key == KEY_AUCA then
      if n < 4 then (a, false)
      else
        var taken := TakeChannels(a.remote, a.src, v[4..], Be32(v[..4]));
        (a.(remote := taken.0), taken.1)
    else (a, true)
  }

  /** link_audio_handle_rx on the body of a PeerAnnouncement. */
  function Heard(cat: seq<Remote>, src: Source, body: seq<byte>): Ann {
    Walk(body, AnnHandler, Ann(cat, src, None, Stored([]))).0
  }

  /** Every entry with an id is dropped. */
  function Drop(cat: seq<Remote>, id: LinkId): (r: seq<Remote>)
    ensures |r| == |cat|
  {
    seq(|cat|, i requires 0 <= i < |cat| => if IsChannel(id)(cat[i]) then cat[i].(inUse := false) else cat[i])
  }

  function DropAll(cat: seq<Remote>, ids: seq<byte>, count: nat): (r: seq<Remote>)
    requires |ids| >= 8 * count
    ensures |r| == |cat|
    decreases count
  {
    if count == 0 then cat else DropAll(Drop(cat, ids[..8]), ids[8..], count - 1)
  }

  /** handle_aucb_entry, its effect on the catalog. */
  function ByeHandler(cat: seq<Remote>, e: Entry): (seq<Remote>, bool) {
    if e.key != KEY_AUCB then (cat, true)
    else if |e.value| < 4 || |e.value| - 4 < 8 * Be32(e.value[..4]) then (cat, false)
    else (DropAll(cat, e.value[4..], Be32(e.value[..4])), true)
  }

  // ---- the encoder ------------------------------------------------------------------

  function ChannelBytes(c: Channel): (s: seq<byte>)
    requires |c.name| < NAME_MAX
    ensures |s| == 12 + |c.name|
  {
    Put32(|c.name|) + c.name + c.id
  }

  predicate Named(cs: seq<Channel>) {
    forall i :: 0 <= i < |cs| ==> |cs[i].name| < NAME_MAX
  }

  function ChannelsBytes(cs: seq<Channel>): (s: seq<byte>)
    requires Named(cs)
    ensures |s| <= 43 * |cs|
  {
    if cs == [] then [] else ChannelBytes(cs[0]) + ChannelsBytes(cs[1..])
  }

  /** The entries of a PeerAnnouncement of up to 32 channels. */
  function AnnEntries(session: LinkId, name: seq<byte>, cs: seq<Channel>, ping: Option<u64>): seq<Entry>
    requires |name| < NAME_MAX && Named(cs) && |cs| <= 32
  {
    [Entry(KEY_SESS, session), NameEntry(name), VectorEntry(cs)] + PingEntries(ping)
  }

  function NameEntry(name: seq<byte>): Entry
    requires |name| < NAME_MAX
  {
    Entry(KEY_PI, Put32(|name|) + name)
  }

  function VectorEntry(cs: seq<Channel>): Entry
    requires Named(cs) && |cs| <= 32
  {
    Entry(KEY_AUCA, Put32(|cs|) + ChannelsBytes(cs))
  }

  function PingEntries(ping: Option<u64>): seq<Entry> {
    if ping.Some? then [Entry(KEY_HT, Put64(ping.value))] else []
  }

  // ---- lookups -----------------------------------------------------------------------

  /** What the catalog knows of a channel id: name and endpoint. */
  datatype Known = Known(name: seq<byte>, addr: u32, port: u16)

  function Lookup(cat: seq<Remote>, id: LinkId): Option<Known> {
    var i := First(cat, IsChannel(id));
    if i < |cat| then Some(Known(cat[i].name, cat[i].addr, cat[i].port)) else None
  }

  /** Channel ids in the catalog are unique. */
  ghost predicate UniqueIds(cat: seq<Remote>) {
    forall i, j :: 0 <= i < j < |cat| && cat[i].inUse && cat[j].inUse ==> cat[i].id != cat[j].id
  }

  /** With unique ids an entry is what its id looks up. */
  lemma LookupIs(cat: seq<Remote>, id: LinkId, k: nat)
    requires UniqueIds(cat) && k < |cat| && cat[k].inUse && cat[k].id == id
    ensures First(cat, IsChannel(id)) == k
  {
    var i := First(cat, IsChannel(id));
    assert IsChannel(id)(cat[k]);
    assert i < |cat| ==> IsChannel(id)(cat[i]);
  }

  lemma LookupMisses(cat: seq<Remote>, id: LinkId)
    requires forall k :: 0 <= k < |cat| ==> !(cat[k].inUse && cat[k].id == id)
    ensures Lookup(cat, id) == None
  {
    FirstIs(cat, IsChannel(id), |cat|);
  }

  /** An announced channel changes what its own id looks up and nothing else, and only
      a full table can refuse a new one. */
  lemma UpsertSpec(cat: seq<Remote>, src: Source, c: Channel, id: LinkId)
    requires UniqueIds(cat)
    ensures var t := Upsert(cat, src, c);
            && UniqueIds(t)
            && (Lookup(cat, c.id).Some? || Count(cat, IsFree()) > 0 ==>
                  Lookup(t, c.id) == Some(Known(Stored(c.name), src.addr, src.port)))
            && (Lookup(cat, c.id).None? && Count(cat, IsFree()) == 0 ==> t == cat)
            && (id != c.id ==> Lookup(t, id) == Lookup(cat, id))
            && (Lookup(cat, c.id).Some? ==> Count(t, IsFree()) == Count(cat, IsFree()))
            && (Lookup(cat, c.id).None? && Count(cat, IsFree()) > 0 ==> Count(t, IsFree()) == Count(cat, IsFree()) - 1)
  {
    hide Stored, Count;
    var t := Upsert(cat, src, c);
    var i, f := First(cat, IsChannel(c.id)), First(cat, IsFree());
    assert forall j :: 0 <= j < i ==> !IsChannel(c.id)(cat[j]);
    var k := if i < |cat| then i else f;
    CountFree(cat, f);
    if k < |cat| {
      assert i < |cat| ==> IsChannel(c.id)(cat[i]);
      assert i == |cat| ==> IsFree()(cat[f]);
      UpsertedAt(cat, t, k, c.id, id);
      CountUpdate(cat, k, t[k], IsFree());
    }
  }

  lemma CountFree(cat: seq<Remote>, f: nat)
    requires f == First(cat, IsFree())
    ensures f < |cat| <==> Count(cat, IsFree()) > 0
  {
    if f < |cat| {
      CountRemove(cat, f, IsFree());
    } else {
      CountNone(cat, IsFree());
    }
  }

  lemma {:induction false} CountNone<T>(s: seq<T>, p: T -> bool)
    requires forall i :: 0 <= i < |s| ==> !p(s[i])
    ensures Count(s, p) == 0
    decreases |s|
  {
    if s != [] {
      CountNone(s[1..], p);
    }
  }

  lemma CountUpdate<T>(s: seq<T>, k: nat, x: T, p: T -> bool)
    requires k < |s|
    ensures Count(s[k := x], p) == Count(s, p) - (if p(s[k]) then 1 else 0) + (if p(x) then 1 else 0)
  {
    CountRemove(s, k, p);
    CountRemove(s[k := x], k, p);
    assert Remove(s[k := x], k) == Remove(s, k);
  }

  /** Slot k, which held cid or was free with cid nowhere, now holds cid. */
  lemma UpsertedAt(cat: seq<Remote>, t: seq<Remote>, k: nat, cid: LinkId, id: LinkId)
    requires UniqueIds(cat) && k < |cat| == |t| && t == cat[k := t[k]] && t[k].inUse && t[k].id == cid
    requires if cat[k].inUse then cat[k].id == cid
             else forall j :: 0 <= j < |cat| ==> !IsChannel(cid)(cat[j])
    ensures UniqueIds(t)
    ensures Lookup(t, cid) == Some(Known(t[k].name, t[k].addr, t[k].port))
    ensures id != cid ==> Lookup(t, id) == Lookup(cat, id)
  {
    forall j | 0 <= j < |cat| && j != k && cat[j].inUse
      ensures cat[j].id != cid
    {
      if !cat[k].inUse { assert !IsChannel(cid)(cat[j]); }
    }
    assert UniqueIds(t);
    LookupIs(t, cid, k);
    if id != cid {
      var i := First(cat, IsChannel(id));
      assert forall j :: 0 <= j < i ==> !IsChannel(id)(cat[j]);
      if i < |cat| {
        assert IsChannel(id)(cat[i]) && i != k && t[i] == cat[i];
        LookupIs(t, id, i);
      } else {
        forall j | 0 <= j < |t|
          ensures !(t[j].inUse && t[j].id == id)
        {
          if j != k { assert !IsChannel(id)(cat[j]); }
        }
        LookupMisses(t, id);
      }
    }
  }

  // ---- uniqueness over every run -------------------------------------------------------

  lemma {:induction false} TakeKeepsUnique(cat: seq<Remote>, src: Source, v: seq<byte>, count: nat)
    requires UniqueIds(cat)
    ensures UniqueIds(TakeChannels(cat, src, v, count).0)
    decreases count
  {
    hide Upsert, UniqueIds, Be32;
    if count > 0 && |v| >= 4 {
      var n: nat := Be32(v[..4]);
      if |v| - 4 >= n + 8 {
        var c := Channel(v[4..4 + n], v[4 + n..12 + n]);
        UpsertSpec(cat, src, c, c.id);
        TakeKeepsUnique(Upsert(cat, src, c), src, v[12 + n..], count - 1);
      }
    }
  }

  lemma {:induction false} DropKeepsUnique(cat: seq<Remote>, ids: seq<byte>, count: nat)
    requires UniqueIds(cat) && |ids| >= 8 * count
    ensures UniqueIds(DropAll(cat, ids, count))
    decreases count
  {
    if count > 0 {
      assert UniqueIds(Drop(cat, ids[..8]));
      DropKeepsUnique(Drop(cat, ids[..8]), ids[8..], count - 1);
    }
  }

  lemma AnnKeepsUnique(a: Ann, e: Entry)
    requires UniqueIds(a.remote)
    ensures UniqueIds(AnnHandler(a, e).0.remote)
  {
    hide UniqueIds, Stored, TakeChannels;
    if e.key == KEY_AUCA && |e.value| >= 4 {
      TakeKeepsUnique(a.remote, a.src, e.value[4..], Be32(e.value[..4]));
    }
  }

  lemma ByeKeepsUnique(cat: seq<Remote>, e: Entry)
    requires UniqueIds(cat)
    ensures UniqueIds(ByeHandler(cat, e).0)
  {
    hide UniqueIds, DropAll;
    if e.key == KEY_AUCB && |e.value| >= 4 && |e.value| - 4 >= 8 * Be32(e.value[..4]) {
      DropKeepsUnique(cat, e.value[4..], Be32(e.value[..4]));
    }
  }

  /** What else an entry records: a refreshed one keeps the peer it was first heard from and takes
      the new time; a new one takes both from the announcement. */
  lemma UpsertRecords(cat: seq<Remote>, src: Source, c: Channel, k: nat)
    requires k < |cat| && Upsert(cat, src, c)[k] != cat[k]
    ensures var r := Upsert(cat, src, c)[k];
            && r.inUse && r.id == c.id && r.lastSeen == src.now && r.addr == src.addr && r.port == src.port
            && r.name == Stored(c.name)
            && (if cat[k].inUse then cat[k].id == c.id && r.peer == cat[k].peer else r.peer == src.peer)
  {
    hide Stored;
  }

  function IdBytes(ids: seq<LinkId>): (s: seq<byte>)
    ensures |s| == 8 * |ids|
  {
    if ids == [] then [] else ids[0] + IdBytes(ids[1..])
  }

  lemma DropForgets(cat: seq<Remote>, gone: LinkId, id: LinkId)
    ensures Lookup(Drop(cat, gone), id) == if id == gone then None else Lookup(cat, id)
  {
    var t := Drop(cat, gone);
    forall k | 0 <= k < |cat|
      ensures IsChannel(id)(t[k]) == (id != gone && IsChannel(id)(cat[k]))
    {
      assert t[k] == if IsChannel(gone)(cat[k]) then cat[k].(inUse := false) else cat[k];
    }
    var i := First(cat, IsChannel(id));
    hide Drop;
    if id != gone {
      FirstIs(t, IsChannel(id), i);
    }
  }

  lemma {:induction false} DropAllForgets(cat: seq<Remote>, ids: seq<LinkId>, id: LinkId)
    ensures Lookup(DropAll(cat, IdBytes(ids), |ids|), id) == if id in ids then None else Lookup(cat, id)
    decreases |ids|
  {
    hide Lookup, Drop;
    if ids != [] {
      var b := IdBytes(ids);
      assert b[..8] == ids[0] && b[8..] == IdBytes(ids[1..]);
      DropForgets(cat, ids[0], id);
      DropAllForgets(Drop(cat, ids[0]), ids[1..], id);
    }
  }

  /** Hearing of channels gone, the catalog forgets exactly those, whatever else it holds. */
  lemma ByeForgets(cat: seq<Remote>, ids: seq<LinkId>, id: LinkId)
    requires 4 + 8 * |ids| < 0x1_0000_0000
    ensures var e := Entry(0x6175_6362, Put32(|ids|) + IdBytes(ids));
            && ByeHandler(cat, e).1
            && Lookup(ByeHandler(cat, e).0, id) == if id in ids then None else Lookup(cat, id)
  {
    var v := Put32(|ids|) + IdBytes(ids);
    assert v[..4] == Put32(|ids|) && v[4..] == IdBytes(ids);
    hide Put32, Be32, DropAll, Lookup, IdBytes;
    DropAllForgets(cat, ids, id);
  }

  /** A vector holds as many channels as its count says. */
  predicate Fits(v: seq<byte>, count: nat)
    decreases count
  {
    count == 0 || (|v| >= 12 && var n: nat := Be32(v[..4]); |v| >= 12 + n && Fits(v[12 + n..], count - 1))
  }

  /** A vector is taken whole exactly when it does. */
  lemma {:induction false} TakenIffFits(cat: seq<Remote>, src: Source, v: seq<byte>, count: nat)
    ensures TakeChannels(cat, src, v, count).1 <==> Fits(v, count)
    decreases count
  {
    hide Be32, Upsert;
    if count > 0 && |v| >= 12 {
      var n: nat := Be32(v[..4]);
      if |v| >= 12 + n {
        TakenIffFits(Upsert(cat, src, Channel(v[4..4 + n], v[4 + n..12 + n])), src, v[12 + n..], count - 1);
      }
    }
  }

  /** When an announcement's entries are accepted, and those of a bye. */
  lemma AcceptedIff(a: Ann, cat: seq<Remote>, e: Entry)
    ensures var v, n := e.value, |e.value|;
            AnnHandler(a, e).1 <==>
              && (e.key == KEY_HT || e.key == KEY_SESS ==> n == 8)
              && (e.key == KEY_PI ==> n >= 4 && n - 4 >= Be32(v[..4]))
              && (e.key == KEY_AUCA ==> n >= 4 && Fits(v[4..], Be32(v[..4])))
    ensures var v, n := e.value, |e.value|;
            && (ByeHandler(cat, e).1 <==> (e.key == KEY_AUCB ==> n >= 4 && n - 4 >= 8 * Be32(v[..4])))
            && (e.key != KEY_AUCB || !ByeHandler(cat, e).1 ==> ByeHandler(cat, e).0 == cat)
  {
    hide Be32, Be64, Stored, TakeChannels, DropAll;
    if e.key == KEY_AUCA && |e.value| >= 4 {
      TakenIffFits(a.remote, a.src, e.value[4..], Be32(e.value[..4]));
    }
  }

  /** Entries whose sizes do not work out are refused: the stamp and the session take eight
      bytes, a name its length, and a vector of channels or of ids what its count says. */
  lemma MisfitsRefused(a: Ann, e: Entry)
    requires var n := |e.value|;
             || (e.key == KEY_HT && n != 8) || (e.key == KEY_SESS && n != 8)
             || (e.key == KEY_PI && (n < 4 || n - 4 < Be32(e.value[..4]))) || (e.key == KEY_AUCA && n < 4)
    ensures AnnHandler(a, e) == (a, false)
  {
    hide Stored, TakeChannels, Be32, Be64;
  }

  /** The bodies of PeerAnnouncements and ChannelByes datagrams, well formed or not. */
  datatype Event = Announcement(src: Source, body: seq<byte>) | Byes(body: seq<byte>)

  function After(cat: seq<Remote>, es: seq<Event>): seq<Remote>
    decreases |es|
  {
    if es == [] then cat
    else After(match es[0]
               case Announcement(src, body) => Heard(cat, src, body).remote
               case Byes(body) => Walk(body, ByeHandler, cat).0,
               es[1..])
  }

  /** Channel ids in the catalog stay unique over every run, whatever is heard. */
  lemma {:induction false} IdsStayUnique(cat: seq<Remote>, es: seq<Event>)
    requires UniqueIds(cat)
    ensures UniqueIds(After(cat, es))
    decreases |es|
  {
    hide AnnHandler, ByeHandler, Walk, UniqueIds;
    if es != [] {
      match es[0] {
        case Announcement(src, body) =>
          var a := Ann(cat, src, None, Stored([]));
          forall b: Ann, e: Entry | UniqueIds(b.remote)
            ensures UniqueIds(AnnHandler(b, e).0.remote)
          {
            AnnKeepsUnique(b, e);
          }
          WalkKeeps(body, AnnHandler, a, (b: Ann) => UniqueIds(b.remote));
          IdsStayUnique(Heard(cat, src, body).remote, es[1..]);
        case Byes(body) =>
          forall b: seq<Remote>, e: Entry | UniqueIds(b)
            ensures UniqueIds(ByeHandler(b, e).0)
          {
            ByeKeepsUnique(b, e);
          }
          WalkKeeps(body, ByeHandler, cat, (b: seq<Remote>) => UniqueIds(b));
          IdsStayUnique(Walk(body, ByeHandler, cat).0, es[1..]);
      }
    }
  }

  // ---- the announcement round trip -------------------------------------------------------

  /** The last channel with an id in an announcement. */
  function LastNamed(cs: seq<Channel>, id: LinkId): Option<seq<byte>> {
    if cs == [] then None
    else
      var later := LastNamed(cs[1..], id);
      if later.Some? then later else if cs[0].id == id then Some(cs[0].name) else None
  }

  /** How many announced channels are not in the catalog yet. */
  function News(cat: seq<Remote>, cs: seq<Channel>): nat {
    if cs == [] then 0 else (if Lookup(cat, cs[0].id).None? then 1 else 0) + News(cat, cs[1..])
  }

  lemma {:induction false} NewsShrinks(cat: seq<Remote>, t: seq<Remote>, cs: seq<Channel>)
    requires forall id: LinkId :: Lookup(cat, id).Some? ==> Lookup(t, id).Some?
    ensures News(t, cs) <= News(cat, cs)
    decreases |cs|
  {
    hide Lookup;
    if cs != [] {
      NewsShrinks(cat, t, cs[1..]);
    }
  }

  /** While free slots last, an announcement sets exactly the announced channels, each
      to its last announced name and the announcer's endpoint. */
  lemma {:induction false} UpsertAllSpec(cat: seq<Remote>, src: Source, cs: seq<Channel>, id: LinkId)
    requires UniqueIds(cat) && News(cat, cs) <= Count(cat, IsFree())
    ensures var t := UpsertAll(cat, src, cs);
            && UniqueIds(t)
            && Lookup(t, id) == if LastNamed(cs, id).Some?
                                then Some(Known(Stored(LastNamed(cs, id).value), src.addr, src.port))
                                else Lookup(cat, id)
    decreases |cs|
  {
    hide Upsert, UniqueIds, Lookup, Stored, Count;
    if cs != [] {
      var t := Upsert(cat, src, cs[0]);
      UpsertSpec(cat, src, cs[0], id);
      forall x: LinkId
        ensures Lookup(cat, x).Some? ==> Lookup(t, x).Some?
      {
        UpsertSpec(cat, src, cs[0], x);
      }
      NewsShrinks(cat, t, cs[1..]);
      UpsertAllSpec(t, src, cs[1..], id);
    }
  }

  lemma {:induction false} TakePrinted(cat: seq<Remote>, src: Source, cs: seq<Channel>)
    requires Named(cs)
    ensures TakeChannels(cat, src, ChannelsBytes(cs), |cs|) == (UpsertAll(cat, src, cs), true)
    decreases |cs|
  {
    hide Upsert, Put32, Be32;
    if cs != [] {
      var c, n, v := cs[0], |cs[0].name|, ChannelsBytes(cs);
      assert v[..4] == Put32(n) by { hide ChannelsBytes; assert v == ChannelBytes(c) + ChannelsBytes(cs[1..]) by { First4(cs); } }
      assert v[4..4 + n] == c.name && v[4 + n..12 + n] == c.id && v[12 + n..] == ChannelsBytes(cs[1..]);
      TakePrinted(Upsert(cat, src, c), src, cs[1..]);
    }
  }

  lemma First4(cs: seq<Channel>)
    requires Named(cs) && cs != []
    ensures ChannelsBytes(cs) == ChannelBytes(cs[0]) + ChannelsBytes(cs[1..])
  {
  }

  /** The nested announcement round trip: a node that hears an encoded announcement
      updates its catalog by exactly the announced channels, in order, and reads off
      the embedded ping. */
  lemma AnnouncementRoundTrip(cat: seq<Remote>, src: Source, session: LinkId, name: seq<byte>, cs: seq<Channel>,
                              ping: Option<u64>)
    requires |name| < NAME_MAX && Named(cs) && |cs| <= 32
    ensures Heard(cat, src, Print(AnnEntries(session, name, cs, ping)))
         == Ann(UpsertAll(cat, src, cs), src, ping, Stored(name))
  {
    hide Walk, AnnHandler, Print, Stored, UpsertAll, Put64, AnnEntries, Feed;
    var es := AnnEntries(session, name, cs, ping);
    var a := Ann(cat, src, None, Stored([]));
    assert Print(es) + [] == Print(es);
    WalkFeedsPrinted(es, [], AnnHandler, a);
    FeedAnnouncement(a, session, name, cs, ping);
  }

  lemma NameStep(a: Ann, name: seq<byte>)
    requires |name| < NAME_MAX
    ensures AnnHandler(a, Entry(KEY_PI, Put32(|name|) + name)) == (a.(peerName := Stored(name)), true)
  {
    hide Stored, TakeChannels;
    var v := Put32(|name|) + name;
    assert v[..4] == Put32(|name|) && v[4..4 + |name|] == name;
    hide Put32;
  }

  lemma AucaStep(a: Ann, v: seq<byte>)
    requires 4 <= |v| < 0x1_0000_0000
    ensures var taken := TakeChannels(a.remote, a.src, v[4..], Be32(v[..4]));
            AnnHandler(a, Entry(KEY_AUCA, v)) == (a.(remote := taken.0), taken.1)
  {
    hide Stored, TakeChannels, Be32;
  }

  lemma VectorStep(a: Ann, cs: seq<Channel>)
    requires Named(cs) && |cs| <= 32
    ensures AnnHandler(a, Entry(KEY_AUCA, Put32(|cs|) + ChannelsBytes(cs)))
         == (a.(remote := UpsertAll(a.remote, a.src, cs)), true)
  {
    hide AnnHandler, Stored, UpsertAll, TakeChannels, ChannelsBytes, Be32, Put32;
    TakePrinted(a.remote, a.src, cs);
    var v := Put32(|cs|) + ChannelsBytes(cs);
    assert v[..4] == Put32(|cs|) && v[4..] == ChannelsBytes(cs);
    AucaStep(a, v);
  }

  lemma FeedAnnouncement(a: Ann, session: LinkId, name: seq<byte>, cs: seq<Channel>, ping: Option<u64>)
    requires |name| < NAME_MAX && Named(cs) && |cs| <= 32 && a.ping == None
    ensures Feed(AnnHandler, a, AnnEntries(session, name, cs, ping))
         == (a.(remote := UpsertAll(a.remote, a.src, cs), ping := ping, peerName := Stored(name)), true)
  {
    var es := AnnEntries(session, name, cs, ping);
    var a2 := a.(peerName := Stored(name));
    var a3 := a2.(remote := UpsertAll(a.remote, a.src, cs));
    assert AnnHandler(a, Entry(KEY_SESS, session)) == (a, true);
    NameStep(a, name);
    VectorStep(a2, cs);
    PingStep(a3, ping);
    hide AnnHandler, Stored, UpsertAll, ChannelsBytes, Put32;
    var tail := if ping.Some? then [Entry(KEY_HT, Put64(ping.value))] else [];
    assert es[1..][1..][1..] == tail;
    assert Feed(AnnHandler, a, es) == Feed(AnnHandler, a, es[1..]);
    assert Feed(AnnHandler, a, es[1..]) == Feed(AnnHandler, a2, es[1..][1..]);
    assert Feed(AnnHandler, a2, es[1..][1..]) == Feed(AnnHandler, a3, tail);
  }

  lemma PingStep(a: Ann, ping: Option<u64>)
    requires a.ping == None
    ensures Feed(AnnHandler, a, if ping.Some? then [Entry(KEY_HT, Put64(ping.value))] else []) == (a.(ping := ping), true)
  {
    if ping.Some? {
      var e: Entry := Entry(KEY_HT, Put64(ping.value));
      assert [e][1..] == [];
      assert AnnHandler(a, e) == (a.(ping := ping), true);
      hide AnnHandler;
    }
  }

  // ---- in place ----------------------------------------------------------------------

  /** The catalog part of the static state of link_audio.c. */
  class RemoteCatalog {
    const remote: array<Remote>

    ghost predicate Valid() {
      remote.Length == MAX_REMOTE
    }

    constructor ()
      ensures Valid() && fresh(remote)
      ensures remote.Length == 64 && forall i :: 0 <= i < 64 ==> remote[i] == EMPTY
    {
      remote := new Remote[MAX_REMOTE](_ => EMPTY);
    }

    /** The slot search and update of ann_handler for one channel. */
    method UpsertChannel(src: Source, c: Channel)
      requires Valid()
      modifies remote
      ensures remote[..] == Upsert(old(remote[..]), src, c)
    {
      hide Stored;
      var r: nat, freeSlot: nat := 0, remote.Length;
      while r < remote.Length
        invariant r <= remote.Length && remote[..] == old(remote[..])
        invariant forall j :: 0 <= j < r ==> !IsChannel(c.id)(remote[j])
        invariant freeSlot == remote.Length || (freeSlot < r && !remote[freeSlot].inUse)
        invariant forall j :: 0 <= j < r && j < freeSlot ==> remote[j].inUse
      {
        if remote[r].inUse && remote[r].id == c.id { break; }
        if !remote[r].inUse && freeSlot == remote.Length { freeSlot := r; }
        r := r + 1;
      }
      FirstIs(remote[..], IsChannel(c.id), r);
      if r < remote.Length {
        remote[r] := remote[r].(name := Stored(c.name), addr := src.addr, port := src.port, lastSeen := src.now);
      } else {
        FirstIs(remote[..], IsFree(), freeSlot);
        if freeSlot < remote.Length {
          remote[freeSlot] := Remote(true, src.peer, c.id, Stored(c.name), src.addr, src.port, src.now);
        }
      }
    }

    /** The channel loop of ann_handler. */
    method TakeVector(src: Source, v: seq<byte>, count: nat) returns (ok: bool)
      requires Valid()
      modifies remote
      ensures (remote[..], ok) == TakeChannels(old(remote[..]), src, v, count)
    {
      hide Upsert, Be32;
      var p: nat := 0;
      for i := 0 to count
        invariant p <= |v|
        invariant TakeChannels(remote[..], src, v[p..], count - i) == TakeChannels(old(remote[..]), src, v, count)
      {
        ghost var rest := v[p..];
        if |v| - p < 4 { return false; }
        var n: nat := Be32(v[p..p + 4]);
        assert rest[..4] == v[p..p + 4];
        if |v| - p - 4 < n + 8 { return false; }
        var c := Channel(v[p + 4..p + 4 + n], v[p + 4 + n..p + 12 + n]);
        assert rest[4..4 + n] == c.name && rest[4 + n..12 + n] == c.id && rest[12 + n..] == v[p + 12 + n..];
        UpsertChannel(src, c);
        p := p + 12 + n;
      }
      return true;
    }

    /** ann_handler on the catalog and the rest of its context. */
    method HandleEntry(ghost a: Ann, src: Source, ping: Option<u64>, peerName: seq<byte>, e: Entry)
      returns (ping': Option<u64>, peerName': seq<byte>, ok: bool)
      requires Valid() && a == Ann(remote[..], src, ping, peerName)
      modifies remote
      ensures (Ann(remote[..], src, ping', peerName'), ok) == AnnHandler(a, e)
    {
      hide Stored, TakeChannels, Be32, Be64;
      ping', peerName', ok := ping, peerName, true;
      var v, n := e.value, |e.value|;
      if e.key == KEY_HT {
        if n != 8 { return ping, peerName, false; }
        ping' := Some(Be64(v));
      } else if e.key == KEY_PI {
        if n < 4 { return ping, peerName, false; }
        var len: nat := Be32(v[..4]);
        if n < 4 + len { return ping, peerName, false; }
        peerName' := Stored(v[4..4 + len]);
      } else if e.key == KEY_SESS {
        if n != 8 { return ping, peerName, false; }
      } else if e.key == KEY_AUCA {
        if n < 4 { return ping, peerName, false; }
        ok := TakeVector(src, v[4..], Be32(v[..4]));
      }
    }

    /** The inner loop of handle_aucb_entry. */
    method DropChannel(id: LinkId)
      requires Valid()
      modifies remote
      ensures remote[..] == Drop(old(remote[..]), id)
    {
      for j := 0 to remote.Length
        invariant forall k :: j <= k < remote.Length ==> remote[k] == old(remote[k])
        invariant forall k :: 0 <= k < j ==>
                    remote[k] == if IsChannel(id)(old(remote[k])) then old(remote[k]).(inUse := false) else old(remote[k])
      {
        if remote[j].inUse && remote[j].id == id {
          remote[j] := remote[j].(inUse := false);
        }
      }
    }

    /** handle_aucb_entry. */
    method HandleByes(e: Entry) returns (ok: bool)
      requires Valid()
      modifies remote
      ensures (remote[..], ok) == ByeHandler(old(remote[..]), e)
    {
      hide Drop, Be32;
      if e.key != KEY_AUCB { return true; }
      var v, n := e.value, |e.value|;
      if n < 4 { return false; }
      var count: nat := Be32(v[..4]);
      if n - 4 < 8 * count { return false; }
      var ids := v[4..];
      for i := 0 to count
        invariant DropAll(remote[..], ids[8 * i..], count - i) == DropAll(old(remote[..]), ids, count)
      {
        assert ids[8 * i..][..8] == ids[8 * i..8 * i + 8] && ids[8 * i..][8..] == ids[8 * (i + 1)..];
        DropChannel(ids[8 * i..8 * i + 8]);
      }
      return true;
    }

    /** The PeerAnnouncement case of link_audio_handle_rx: the walk with ann_handler as
        its callback. The ping to answer, if there is one, is returned. */
    method HandleAnnouncement(src: Source, body: seq<byte>) returns (ping: Option<u64>, peerName: seq<byte>)
      requires Valid()
      modifies remote
      ensures Ann(remote[..], src, ping, peerName) == Heard(old(remote[..]), src, body)
    {
      hide AnnHandler, Stored, Be32;
      ping, peerName := None, Stored([]);
      ghost var whole := Walk(body, AnnHandler, Ann(remote[..], src, None, Stored([])));
      var p := 0;
      while p + 8 <= |body|
        invariant p <= |body|
        invariant Walk(body[p..], AnnHandler, Ann(remote[..], src, ping, peerName)) == whole
      {
        ghost var rest := body[p..];
        var key, size: nat := Be32(body[p..p + 4]), Be32(body[p + 4..p + 8]);
        assert rest[..4] == body[p..p + 4] && rest[4..8] == body[p + 4..p + 8];
        if p + 8 + size > |body| { return; }
        assert rest[8..8 + size] == body[p + 8..p + 8 + size];
        assert rest[8 + size..] == body[p + 8 + size..];
        var ok;
        ping, peerName, ok := HandleEntry(Ann(remote[..], src, ping, peerName), src, ping, peerName,
                                          Entry(key, body[p + 8..p + 8 + size]));
        if !ok { return; }
        p := p + 8 + size;
      }
    }
  }

  /** A local channel slot. */
  datatype Local = Local(inUse: bool, name: seq<byte>, id: LinkId)

  function Announced(ls: seq<Local>): (cs: seq<Channel>)
    ensures |cs| <= |ls|
  {
    if ls == [] then []
    else Announced(ls[..|ls| - 1])
         + if ls[|ls| - 1].inUse then [Channel(ls[|ls| - 1].name, ls[|ls| - 1].id)] else []
  }

  lemma {:induction false} ChannelsBytesSnoc(cs: seq<Channel>, c: Channel)
    requires Named(cs) && |c.name| < NAME_MAX
    ensures Named(cs + [c]) && ChannelsBytes(cs + [c]) == ChannelsBytes(cs) + ChannelBytes(c)
    decreases |cs|
  {
    hide ChannelBytes;
    if cs == [] {
      assert cs + [c] == [c] && [c][1..] == [];
    } else {
      ChannelsBytesSnoc(cs[1..], c);
      assert (cs + [c])[1..] == cs[1..] + [c];
      Assoc(ChannelBytes(cs[0]), ChannelsBytes(cs[1..]), ChannelBytes(c));
    }
  }

  predicate LocalsNamed(ls: seq<Local>) {
    forall i :: 0 <= i < |ls| ==> |ls[i].name| < NAME_MAX
  }

  lemma {:induction false} AnnouncedNamed(ls: seq<Local>)
    requires LocalsNamed(ls)
    ensures Named(Announced(ls))
    decreases |ls|
  {
    if ls != [] {
      AnnouncedNamed(ls[..|ls| - 1]);
    }
  }

  /** The announced channels of one more local slot, as bytes. */
  lemma AnnouncedNext(ls: seq<Local>, i: nat)
    requires LocalsNamed(ls) && i < |ls|
    ensures Named(Announced(ls[..i])) && Named(Announced(ls[..i + 1]))
    ensures ChannelsBytes(Announced(ls[..i + 1]))
         == ChannelsBytes(Announced(ls[..i]))
            + if ls[i].inUse then ChannelBytes(Channel(ls[i].name, ls[i].id)) else []
    ensures |Announced(ls[..i + 1])| == |Announced(ls[..i])| + if ls[i].inUse then 1 else 0
  {
    hide ChannelBytes, ChannelsBytes;
    AnnouncedNamed(ls[..i]);
    AnnouncedNamed(ls[..i + 1]);
    assert ls[..i + 1][..i] == ls[..i];
    var cs := Announced(ls[..i]);
    if ls[i].inUse {
      ChannelsBytesSnoc(cs, Channel(ls[i].name, ls[i].id));
    } else {
      assert Announced(ls[..i + 1]) == cs + [] == cs;
      assert ChannelsBytes(cs) + [] == ChannelsBytes(cs);
    }
  }

  /** The first loop of encode_peer_announcement: the size of the vector's items, and
      their number. */
  method MeasureVector(locals: array<Local>) returns (total: nat, count: nat)
    requires LocalsNamed(locals[..])
    ensures Named(Announced(locals[..]))
    ensures total == |ChannelsBytes(Announced(locals[..]))| && count == |Announced(locals[..])|
  {
    hide ChannelsBytes;
    NothingAnnounced(locals[..]);
    total, count := 0, 0;
    for i := 0 to locals.Length
      invariant Named(Announced(locals[..i]))
      invariant total == |ChannelsBytes(Announced(locals[..i]))| && count == |Announced(locals[..i])|
    {
      AnnouncedNext(locals[..], i);
      assert locals[..][..i] == locals[..i] && locals[..][..i + 1] == locals[..i + 1];
      if locals[i].inUse {
        total := total + 4 + |locals[i].name| + 8;
        count := count + 1;
      }
    }
    assert locals[..] == locals[..locals.Length];
  }

  lemma NothingAnnounced(ls: seq<Local>)
    ensures Announced(ls[..0]) == [] && Named(Announced(ls[..0])) && ChannelsBytes(Announced(ls[..0])) == []
  {
  }

  method EmitChannel(buf: array<byte>, p: nat, c: Channel) returns (q: nat)
    requires |c.name| < NAME_MAX && p + 12 + |c.name| <= buf.Length
    modifies buf
    ensures q == p + 12 + |c.name| && buf[..q] == old(buf[..p]) + ChannelBytes(c)
  {
    hide Put32;
    q := EmitBe32(buf, p, |c.name|);
    q := EmitRaw(buf, q, c.name);
    q := EmitRaw(buf, q, c.id);
  }

  /** The second loop: the items. */
  method EmitVector(buf: array<byte>, p: nat, locals: array<Local>) returns (q: nat)
    requires LocalsNamed(locals[..]) && Named(Announced(locals[..]))
    requires p + |ChannelsBytes(Announced(locals[..]))| <= buf.Length
    modifies buf
    ensures q == p + |ChannelsBytes(Announced(locals[..]))|
    ensures buf[..q] == old(buf[..p]) + ChannelsBytes(Announced(locals[..]))
  {
    hide ChannelsBytes, ChannelBytes, Announced;
    ghost var ls := locals[..];
    NothingAnnounced(ls);
    q := p;
    for i := 0 to locals.Length
      invariant Named(Announced(ls[..i]))
      invariant q == p + |ChannelsBytes(Announced(ls[..i]))| <= buf.Length
      invariant buf[..q] == old(buf[..p]) + ChannelsBytes(Announced(ls[..i]))
    {
      AnnouncedNext(ls, i);
      PrefixFits(ls, i + 1);
      if locals[i].inUse {
        q := EmitChannel(buf, q, Channel(locals[i].name, locals[i].id));
      }
    }
    assert ls[..locals.Length] == ls;
  }

  lemma {:induction false} PrefixFits(ls: seq<Local>, i: nat)
    requires LocalsNamed(ls) && i <= |ls|
    ensures Named(Announced(ls[..i])) && Named(Announced(ls))
    ensures |ChannelsBytes(Announced(ls[..i]))| <= |ChannelsBytes(Announced(ls))|
    decreases |ls| - i
  {
    hide ChannelsBytes, ChannelBytes, Announced;
    AnnouncedNamed(ls[..i]);
    AnnouncedNamed(ls);
    if i < |ls| {
      AnnouncedNext(ls, i);
      PrefixFits(ls, i + 1);
    } else {
      assert ls[..i] == ls;
    }
  }

  /** The __pi entry: the node's name behind its length. */
  method EmitName(buf: array<byte>, p: nat, name: seq<byte>) returns (q: nat)
    requires |name| < NAME_MAX && p + 12 + |name| <= buf.Length
    modifies buf
    ensures q == p + 12 + |name| && buf[..q] == old(buf[..p]) + PrintEntry(NameEntry(name))
  {
    ghost var s := buf[..p];
    hide Put32, Header, PrintEntry;
    q := EmitHeader(buf, p, KEY_PI, 4 + |name|);
    q := EmitBe32(buf, q, |name|);
    q := EmitRaw(buf, q, name);
    ItemEntry(s, KEY_PI, |name|, name);
  }

  /** The auca entry: the two loops over the local channels. */
  method EmitChannels(buf: array<byte>, p: nat, locals: array<Local>) returns (q: nat)
    requires locals.Length <= 32 && LocalsNamed(locals[..]) && Named(Announced(locals[..]))
    requires p + 12 + |ChannelsBytes(Announced(locals[..]))| <= buf.Length
    modifies buf
    ensures q == p + 12 + |ChannelsBytes(Announced(locals[..]))|
    ensures buf[..q] == old(buf[..p]) + PrintEntry(VectorEntry(Announced(locals[..])))
  {
    hide Put32, Header, PrintEntry, ChannelsBytes, Announced;
    ghost var s, cs := buf[..p], Announced(locals[..]);
    var total, count := MeasureVector(locals);
    q := EmitHeader(buf, p, KEY_AUCA, 4 + total);
    q := EmitBe32(buf, q, count);
    q := EmitVector(buf, q, locals);
    ItemEntry(s, KEY_AUCA, |cs|, ChannelsBytes(cs));
  }

  /** encode_peer_announcement. The buffer holds 1200 bytes and is not checked. */
  method EncodeAnnouncement(buf: array<byte>, selfId: LinkId, session: LinkId, name: seq<byte>,
                            locals: array<Local>, ping: Option<u64>) returns (n: nat)
    requires buf.Length == MAX_MSG && |name| < NAME_MAX
    requires locals.Length <= 32 && LocalsNamed(locals[..]) && Named(Announced(locals[..]))
    requires 76 + |name| + |ChannelsBytes(Announced(locals[..]))| <= MAX_MSG
    modifies buf
    ensures n <= buf.Length
    ensures buf[..n] == AudioPacket.AudioHeader(1, Link.TTL_SEC, selfId)
                        + Print(AnnEntries(session, name, Announced(locals[..]), ping))
  {
    hide Put32, Put64, ChannelsBytes, Announced, AudioPacket.AudioHeader, Print, PrintEntry, AnnEntries,
         NameEntry, VectorEntry;
    var head := AudioPacket.AudioHeader(1, Link.TTL_SEC, selfId);
    n := EmitRaw(buf, 0, head);
    n := EmitBytes(buf, n, KEY_SESS, session);
    n := EmitName(buf, n, name);
    n := EmitChannels(buf, n, locals);
    if ping.Some? {
      n := EmitU64(buf, n, KEY_HT, ping.value);
    }
    PrintAnn(head, session, name, Announced(locals[..]), ping);
  }

  lemma ItemEntry(s: seq<byte>, key: u32, count: u32, items: seq<byte>)
    requires 4 + |items| < 0x1_0000_0000
    ensures s + Header(key, 4 + |items|) + Put32(count) + items == s + PrintEntry(Entry(key, Put32(count) + items))
  {
    hide Put32, Header;
  }

  lemma PrintAnn(head: seq<byte>, session: LinkId, name: seq<byte>, cs: seq<Channel>, ping: Option<u64>)
    requires |name| < NAME_MAX && Named(cs) && |cs| <= 32
    ensures head + Print(AnnEntries(session, name, cs, ping))
         == head + PrintEntry(Entry(KEY_SESS, session)) + PrintEntry(NameEntry(name)) + PrintEntry(VectorEntry(cs))
            + if ping.Some? then PrintEntry(Entry(KEY_HT, Put64(ping.value))) else []
  {
    hide PrintEntry, NameEntry, VectorEntry, Print, Put64;
    var tail := PingEntries(ping);
    PrintFour(head, Entry(KEY_SESS, session), NameEntry(name), VectorEntry(cs), tail);
    if ping.Some? {
      PrintOne(Entry(KEY_HT, Put64(ping.value)));
    } else {
      assert Print(tail) == [] by { PrintNone(); }
    }
  }

  lemma PrintFour(head: seq<byte>, a: Entry, b: Entry, c: Entry, tail: seq<Entry>)
    ensures head + Print([a, b, c] + tail) == head + PrintEntry(a) + PrintEntry(b) + PrintEntry(c) + Print(tail)
  {
    hide Print, PrintEntry;
    PrintAppend([a], [b] + ([c] + tail));
    PrintAppend([b], [c] + tail);
    PrintAppend([c], tail);
    PrintOne(a);
    PrintOne(b);
    PrintOne(c);
    assert [a, b, c] + tail == [a] + ([b] + ([c] + tail));
    assert head + (PrintEntry(a) + (PrintEntry(b) + (PrintEntry(c) + Print(tail))))
        == head + PrintEntry(a) + PrintEntry(b) + PrintEntry(c) + Print(tail);
  }
}
