/** tlv.c: the payload printer, which appends entries to a buffer through an
    advancing position, and the parser, which walks a buffer and hands every
    entry to a callback. */
module Tlv {
  import opened Bytes
  import SeqTools

  const KEY_TMLN: u32 := 0x746D_6C6E
  const KEY_SESS: u32 := 0x7365_7373
  const KEY_STST: u32 := 0x7374_7374
  const KEY_MEP4: u32 := 0x6D65_7034
  const KEY_MEP6: u32 := 0x6D65_7036
  const KEY_AEP4: u32 := 0x6165_7034
  const KEY_AEP6: u32 := 0x6165_7036
  const KEY_HT: u32 := 0x5F5F_6874
  const KEY_GT: u32 := 0x5F5F_6774
  const KEY_PGT: u32 := 0x5F70_6774
  const KEY_PI: u32 := 0x5F5F_7069
  const KEY_AUCA: u32 := 0x6175_6361
  const KEY_AUCB: u32 := 0x6175_6362

  datatype RawEntry = Entry(key: u32, value: seq<byte>)
  type Entry = e: RawEntry | |e.value| < 0x1_0000_0000 witness Entry(0, [])

  // ---- the grammar -----------------------------------------------------------

  function Header(key: u32, size: u32): (s: seq<byte>)
    ensures |s| == 8
  {
    Put32(key) + Put32(size)
  }

  function PrintEntry(e: Entry): seq<byte> {
    Header(e.key, |e.value|) + e.value
  }

  function Print(es: seq<Entry>): seq<byte> {
    if es == [] then [] else PrintEntry(es[0]) + Print(es[1..])
  }

  lemma PrintNone()
    ensures Print([]) == []
  {
  }

  lemma PrintOne(e: Entry)
    ensures Print([e]) == PrintEntry(e)
  {
    assert [e][1..] == [];
  }

  lemma {:induction false} PrintAppend(es: seq<Entry>, fs: seq<Entry>)
    ensures Print(es + fs) == Print(es) + Print(fs)
    decreases |es|
  {
    if es == [] {
      assert es + fs == fs;
    } else {
      PrintAppend(es[1..], fs);
      assert (es + fs)[1..] == es[1..] + fs;
      SeqTools.Assoc(PrintEntry(es[0]), Print(es[1..]), Print(fs));
    }
  }

  lemma Regroup(s: seq<byte>, h: seq<byte>, a: seq<byte>, b: seq<byte>, c: seq<byte>)
    ensures s + h + a + b + c == s + (h + (a + b + c))
  {
  }

  // ---- emitters: writes through an advancing position -------------------------

  /** put_be32(p, v); p += 4. */
  method EmitBe32(buf: array<byte>, p: nat, v: u32) returns (q: nat)
    requires p + 4 <= buf.Length
    modifies buf
    ensures q == p + 4 && buf[..q] == old(buf[..p]) + Put32(v)
  {
    var s := Put32(v);
    buf[p], buf[p + 1], buf[p + 2], buf[p + 3] := s[0], s[1], s[2], s[3];
    q := p + 4;
    assert buf[..q] == buf[..p] + s;
  }

  /** put_be16(p, v); p += 2. */
  method EmitBe16(buf: array<byte>, p: nat, v: u16) returns (q: nat)
    requires p + 2 <= buf.Length
    modifies buf
    ensures q == p + 2 && buf[..q] == old(buf[..p]) + Put16(v)
  {
    buf[p], buf[p + 1] := v / 0x100, v % 0x100;
    q := p + 2;
    assert buf[..q] == buf[..p] + Put16(v);
  }

  /** put_be64(p, v); p += 8. */
  method EmitBe64(buf: array<byte>, p: nat, v: u64) returns (q: nat)
    requires p + 8 <= buf.Length
    modifies buf
    ensures q == p + 8 && buf[..q] == old(buf[..p]) + Put64(v)
  {
    q := EmitBe32(buf, p, v / 0x1_0000_0000);
    q := EmitBe32(buf, q, v % 0x1_0000_0000);
  }

  /** memcpy(p, src, n); p += n. */
  method EmitRaw(buf: array<byte>, p: nat, src: seq<byte>) returns (q: nat)
    requires p + |src| <= buf.Length
    modifies buf
    ensures q == p + |src| && buf[..q] == old(buf[..p]) + src
  {
    for i := 0 to |src|
      invariant buf[..p + i] == old(buf[..p]) + src[..i]
    {
      buf[p + i] := src[i];
    }
    q := p + |src|;
  }

  /** tlv_emit_header. */
  method EmitHeader(buf: array<byte>, p: nat, key: u32, size: u32) returns (q: nat)
    requires p + 8 <= buf.Length
    modifies buf
    ensures q == p + 8 && buf[..q] == old(buf[..p]) + Header(key, size)
  {
    q := EmitBe32(buf, p, key);
    q := EmitBe32(buf, q, size);
  }

  /** tlv_emit_bytes. */
  method EmitBytes(buf: array<byte>, p: nat, key: u32, src: seq<byte>) returns (q: nat)
    requires |src| < 0x1_0000_0000 && p + 8 + |src| <= buf.Length
    modifies buf
    ensures q == p + 8 + |src| && buf[..q] == old(buf[..p]) + PrintEntry(Entry(key, src))
  {
    q := EmitHeader(buf, p, key, |src|);
    q := EmitRaw(buf, q, src);
  }

  /** tlv_emit_u64be. */
  method EmitU64(buf: array<byte>, p: nat, key: u32, v: u64) returns (q: nat)
    requires p + 16 <= buf.Length
    modifies buf
    ensures q == p + 16 && buf[..q] == old(buf[..p]) + PrintEntry(Entry(key, Put64(v)))
  {
    q := EmitHeader(buf, p, key, 8);
    q := EmitBe64(buf, q, v);
  }

  // ---- the walk ----------------------------------------------------------------

  /** A callback takes its context and an entry and returns the context it leaves
      behind and whether it returned 0. */
  type Callback<!C> = (C, Entry) -> (C, bool)

  /** tlv_walk: the context left behind, and whether the return value is 0. */
  function Walk<C>(buf: seq<byte>, cb: Callback<C>, ctx: C): (C, bool)
    decreases |buf|
  {
    if |buf| < 8 then (ctx, buf == [])
    else
      var size := Be32(buf[4..8]);
      if 8 + size > |buf| then (ctx, false)
      else
        var step := cb(ctx, Entry(Be32(buf[..4]), buf[8..8 + size]));
        if !step.1 then (step.0, false) else Walk(buf[8 + size..], cb, step.0)
  }

  method TlvWalk<C>(buf: seq<byte>, cb: Callback<C>, ctx: C) returns (out: C, ok: bool)
    ensures (out, ok) == Walk(buf, cb, ctx)
  {
    var p := 0;
    out := ctx;
    while p + 8 <= |buf|
      invariant p <= |buf|
      invariant Walk(buf[p..], cb, out) == Walk(buf, cb, ctx)
    {
      ghost var rest := buf[p..];
      var key := Be32(buf[p..p + 4]);
      var size := Be32(buf[p + 4..p + 8]);
      assert rest[..4] == buf[p..p + 4] && rest[4..8] == buf[p + 4..p + 8];
      if p + 8 + size > |buf| { return out, false; }
      assert rest[8..8 + size] == buf[p + 8..p + 8 + size];
      assert rest[8 + size..] == buf[p + 8 + size..];
      var step := cb(out, Entry(key, buf[p + 8..p + 8 + size]));
      out := step.0;
      if !step.1 { return out, false; }
      p := p + 8 + size;
    }
    ok := p == |buf|;
  }

  /** What feeding a list of entries to a callback does, in order and stopping
      where the callback refuses. */
  function Feed<C>(cb: Callback<C>, ctx: C, es: seq<Entry>): (C, bool) {
    if es == [] then (ctx, true)
    else
      var step := cb(ctx, es[0]);
      if !step.1 then step else Feed(cb, step.0, es[1..])
  }

  /** No entry can be read off the front of this: it is a truncated header, or a
      header whose size runs past the end. */
  predicate Stuck(tail: seq<byte>) {
    |tail| < 8 || 8 + Be32(tail[4..8]) > |tail|
  }

  /** Walking printed entries followed by an unreadable tail feeds exactly those
      entries to the callback, and succeeds exactly when the callback takes them
      all and there is no tail. */
  lemma {:induction false} WalkFeedsPrinted<C>(es: seq<Entry>, tail: seq<byte>, cb: Callback<C>, ctx: C)
    requires Stuck(tail)
    ensures var fed := Feed(cb, ctx, es);
            Walk(Print(es) + tail, cb, ctx) == (fed.0, fed.1 && tail == [])
    decreases |es|
  {
    var buf := Print(es) + tail;
    if es == [] {
      assert buf == tail;
    } else {
      var e, n := es[0], |es[0].value|;
      assert buf[..4] == Put32(e.key);
      assert buf[4..8] == Put32(n);
      assert buf[8..8 + n] == e.value;
      assert buf[8 + n..] == Print(es[1..]) + tail;
      WalkFeedsPrinted(es[1..], tail, cb, cb(ctx, e).0);
    }
  }

  /** The list of entries at the front of a buffer. */
  function Scan(buf: seq<byte>): seq<Entry>
    decreases |buf|
  {
    if Stuck(buf) then []
    else
      var end := 8 + Be32(buf[4..8]);
      [Entry(Be32(buf[..4]), buf[8..end])] + Scan(buf[end..])
  }

  /** A readable front is a printed entry. */
  lemma FrontEntry(buf: seq<byte>)
    requires !Stuck(buf)
    ensures var end := 8 + Be32(buf[4..8]);
            buf == PrintEntry(Entry(Be32(buf[..4]), buf[8..end])) + buf[end..]
  {
    var end := 8 + Be32(buf[4..8]);
    Put32Be32(buf[..4]);
    Put32Be32(buf[4..8]);
    hide Be32, Put32;
    assert |buf[8..end]| == Be32(buf[4..8]);
    assert buf == buf[..4] + buf[4..8] + buf[8..end] + buf[end..];
  }

  /** Every buffer whatever is a list of printed entries followed by an unreadable
      tail. */
  lemma {:induction false} EveryBufferDecomposes(buf: seq<byte>) returns (tail: seq<byte>)
    ensures Stuck(tail) && buf == Print(Scan(buf)) + tail
    decreases |buf|
  {
    if Stuck(buf) {
      tail := buf;
    } else {
      var end := 8 + Be32(buf[4..8]);
      var e := Entry(Be32(buf[..4]), buf[8..end]);
      tail := EveryBufferDecomposes(buf[end..]);
      FrontEntry(buf);
      hide Be32, PrintEntry;
      assert Scan(buf)[0] == e && Scan(buf)[1..] == Scan(buf[end..]);
      SeqTools.Assoc(PrintEntry(e), Print(Scan(buf[end..])), tail);
    }
  }

  /** ... and only one list: scanning recovers it. */
  lemma {:induction false} ScanPrinted(es: seq<Entry>, tail: seq<byte>)
    requires Stuck(tail)
    ensures Scan(Print(es) + tail) == es
    decreases |es|
  {
    var buf := Print(es) + tail;
    if es == [] {
      assert buf == tail;
    } else {
      var e, n := es[0], |es[0].value|;
      assert buf[..4] == Put32(e.key);
      assert buf[4..8] == Put32(n);
      assert buf[8..8 + n] == e.value;
      assert buf[8 + n..] == Print(es[1..]) + tail;
      ScanPrinted(es[1..], tail);
    }
  }

  /** The TLV grammar. Over any buffer the walk hands the callback exactly the
      scanned entries in order; it returns 0 exactly when the callback accepts
      them all and the buffer is nothing but those entries printed, and in that
      case no other list prints as the buffer. */
  lemma WalkGrammar<C>(buf: seq<byte>, cb: Callback<C>, ctx: C)
    ensures Walk(buf, cb, ctx).0 == Feed(cb, ctx, Scan(buf)).0
    ensures Walk(buf, cb, ctx).1 <==> Feed(cb, ctx, Scan(buf)).1 && buf == Print(Scan(buf))
    ensures forall es: seq<Entry> :: Print(es) == buf ==> es == Scan(buf)
  {
    var tail := EveryBufferDecomposes(buf);
    WalkFeedsPrinted(Scan(buf), tail, cb, ctx);
    assert tail == [] <==> buf == Print(Scan(buf));
    forall es: seq<Entry> | Print(es) == buf
      ensures es == Scan(buf)
    {
      ScanPrinted(es, []);
      assert Print(es) + [] == buf;
    }
  }

  /** With a callback that accepts everything, 0 means exactly "a concatenation of
      printed entries"; anything left over that is not one (a header cut short, a
      size past the end) gives -1. */
  lemma AcceptingWalk<C>(buf: seq<byte>, cb: Callback<C>, ctx: C)
    requires forall c: C, e: Entry :: cb(c, e).1
    ensures Walk(buf, cb, ctx).1 <==> exists es: seq<Entry> :: buf == Print(es)
  {
    WalkGrammar(buf, cb, ctx);
    AcceptingFeed(cb, ctx, Scan(buf));
    if Walk(buf, cb, ctx).1 {
      assert buf == Print(Scan(buf));
    }
  }

  lemma {:induction false} AcceptingFeed<C>(cb: Callback<C>, ctx: C, es: seq<Entry>)
    requires forall c: C, e: Entry :: cb(c, e).1
    ensures Feed(cb, ctx, es).1
    decreases |es|
  {
    if es != [] {
      AcceptingFeed(cb, cb(ctx, es[0]).0, es[1..]);
    }
  }

  /** Skipping the entries a callback leaves alone changes nothing. */
  function Keep(known: u32 -> bool, es: seq<Entry>): (kept: seq<Entry>) {
    if es == [] then []
    else (if known(es[0].key) then [es[0]] else []) + Keep(known, es[1..])
  }

  lemma {:induction false} FeedSkipsUnknown<C>(cb: Callback<C>, ctx: C, es: seq<Entry>, known: u32 -> bool)
    requires forall c: C, e: Entry :: !known(e.key) ==> cb(c, e) == (c, true)
    ensures Feed(cb, ctx, es) == Feed(cb, ctx, Keep(known, es))
    decreases |es|
  {
    if es != [] {
      var step := cb(ctx, es[0]);
      if step.1 {
        FeedSkipsUnknown(cb, step.0, es[1..], known);
      }
      var kept := Keep(known, es);
      if known(es[0].key) {
        assert kept[0] == es[0] && kept[1..] == Keep(known, es[1..]);
      } else {
        assert kept == Keep(known, es[1..]);
      }
    }
  }

  /** What every call of the callback keeps, the walk keeps, over any buffer. */
  lemma {:induction false} WalkKeeps<C>(buf: seq<byte>, cb: Callback<C>, ctx: C, inv: C -> bool)
    requires inv(ctx) && forall c: C, e: Entry :: inv(c) ==> inv(cb(c, e).0)
    ensures inv(Walk(buf, cb, ctx).0)
    decreases |buf|
  {
    hide Be32;
    if !Stuck(buf) {
      var end := 8 + Be32(buf[4..8]);
      var step := cb(ctx, Entry(Be32(buf[..4]), buf[8..end]));
      if step.1 {
        WalkKeeps(buf[end..], cb, step.0, inv);
      }
    }
  }
}
