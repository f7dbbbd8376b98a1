/** tlv_walk on its 32-bit target, where pointers are addresses modulo 2^32. Tlv.Walk
    adds sizes without a bound; here is exactly when that makes a difference. */
module AddressWalk {
  import opened Bytes
  import opened Tlv
  import Link

  const SPACE := 0x1_0000_0000

  type Memory = u32 -> byte

  /** n bytes from address a on, round the top of the address space. */
  function Read(mem: Memory, a: nat, n: nat): (s: seq<byte>)
    ensures |s| == n
  {
    seq(n, i requires 0 <= i < n => mem((a + i) % SPACE))
  }

  /** The header at address p, and the entry it stands for. */
  function SizeAt(mem: Memory, p: nat): u32 {
    Be32(Read(mem, p + 4, 4))
  }

  function EntryAt(mem: Memory, p: nat): Entry {
    Entry(Be32(Read(mem, p, 4)), Read(mem, p + 8, SizeAt(mem, p)))
  }

  datatype Call = Call(key: u32, size: u32)

  /** The calls of the callback, in order, and what is left in the context and whether 0
      is returned; None when the walk has not returned. */
  datatype Course<C> = Course(calls: seq<Call>, result: Option<(C, bool)>)

  function CallFor(e: Entry): Call {
    Call(e.key, |e.value|)
  }

  function Called<C>(c: Call, rest: Course<C>): Course<C> {
    Course([c] + rest.calls, rest.result)
  }

  /** At most `steps` rounds of the loop of tlv_walk, from address p. */
  function Run<C>(mem: Memory, end: nat, cb: Callback<C>, p: nat, ctx: C, steps: nat): Course<C>
    requires p <= end && end + 8 <= SPACE
    decreases steps
  {
    if p + 8 > end then Course([], Some((ctx, p == end)))
    else if steps == 0 then Course([], None)
    else
      var q := (p + 8 + SizeAt(mem, p)) % SPACE;
      if q > end then Course([], Some((ctx, false)))
      else
        var step := cb(ctx, EntryAt(mem, p));
        Called(CallFor(EntryAt(mem, p)),
               if step.1 then Run(mem, end, cb, q, step.0, steps - 1) else Course([], Some((step.0, false))))
  }

  function EntryOf(buf: seq<byte>): Entry
    requires !Stuck(buf)
  {
    Entry(Be32(buf[..4]), buf[8..8 + Be32(buf[4..8])])
  }

  /** The calls Tlv.Walk makes. */
  function Calls<C>(buf: seq<byte>, cb: Callback<C>, ctx: C): seq<Call>
    decreases |buf|
  {
    if Stuck(buf) then []
    else
      var e := EntryOf(buf);
      var step := cb(ctx, e);
      [CallFor(e)] + if step.1 then Calls(buf[8 + |e.value|..], cb, step.0) else []
  }

  /** The walk reaches a header whose address + 8 + size leaves the address space. */
  predicate Wraps<C>(buf: seq<byte>, a: nat, cb: Callback<C>, ctx: C)
    decreases |buf|
  {
    if Stuck(buf) then |buf| >= 8 && a + 8 + Be32(buf[4..8]) >= SPACE
    else
      var e := EntryOf(buf);
      var q := a + 8 + |e.value|;
      q >= SPACE || (cb(ctx, e).1 && Wraps(buf[8 + |e.value|..], q, cb, cb(ctx, e).0))
  }

  lemma ReadPart(mem: Memory, a: nat, n: nat, i: nat, j: nat)
    requires i <= j <= n
    ensures Read(mem, a, n)[i..j] == Read(mem, a + i, j - i)
  {
  }

  lemma PrefixCons<T>(x: T, s: seq<T>, t: seq<T>)
    requires s < t
    ensures [x] + s < [x] + t
  {
  }

  /** The header at the front of a buffer in memory, and what follows it. */
  lemma Front(mem: Memory, a: nat, end: nat)
    requires a + 8 <= end
    ensures var buf, size := Read(mem, a, end - a), SizeAt(mem, a);
            && Be32(buf[4..8]) == size && (Stuck(buf) <==> a + 8 + size > end)
            && (a + 8 + size <= end ==> && EntryOf(buf) == EntryAt(mem, a)
                                        && buf[8 + size..] == Read(mem, a + 8 + size, end - (a + 8 + size)))
  {
    hide Be32;
    var n, size := end - a, SizeAt(mem, a);
    ReadPart(mem, a, n, 0, 4);
    ReadPart(mem, a, n, 4, 8);
    if 8 + size <= n {
      ReadPart(mem, a, n, 8, 8 + size);
      ReadPart(mem, a, n, 8 + size, n);
    }
  }

  /** One round of Tlv.Walk, its calls and its wraps. */
  lemma WalkRound<C>(buf: seq<byte>, a: nat, cb: Callback<C>, ctx: C)
    requires !Stuck(buf)
    ensures var e := EntryOf(buf);
            var step, q, rest := cb(ctx, e), a + 8 + |e.value|, buf[8 + |e.value|..];
            && Walk(buf, cb, ctx) == (if step.1 then Walk(rest, cb, step.0) else (step.0, false))
            && Calls(buf, cb, ctx) == (if step.1 then [CallFor(e)] + Calls(rest, cb, step.0) else [CallFor(e)])
            && (Wraps(buf, a, cb, ctx) <==> q >= SPACE || (step.1 && Wraps(rest, q, cb, step.0)))
  {
    hide Be32;
    assert [CallFor(EntryOf(buf))] + [] == [CallFor(EntryOf(buf))];
  }

  lemma WalkStops<C>(buf: seq<byte>, a: nat, cb: Callback<C>, ctx: C)
    requires Stuck(buf)
    ensures Walk(buf, cb, ctx) == (ctx, buf == []) && Calls(buf, cb, ctx) == []
    ensures Wraps(buf, a, cb, ctx) <==> |buf| >= 8 && a + 8 + Be32(buf[4..8]) >= SPACE
  {
  }

  /** One round of the code. */
  lemma RunRound<C>(mem: Memory, a: nat, end: nat, cb: Callback<C>, ctx: C, steps: nat)
    requires a + 8 <= end && end + 8 <= SPACE && steps > 0
    ensures var e, q, run := EntryAt(mem, a), a + 8 + SizeAt(mem, a), Run(mem, end, cb, a, ctx, steps);
            if q >= SPACE then [] < run.calls
            else if q > end then run == Course([], Some((ctx, false)))
            else if !cb(ctx, e).1 then run == Course([CallFor(e)], Some((cb(ctx, e).0, false)))
            else run == Called(CallFor(e), Run(mem, end, cb, q, cb(ctx, e).0, steps - 1))
  {
    hide EntryAt, SizeAt;
    var q := a + 8 + SizeAt(mem, a);
    if q >= SPACE {
      assert q % SPACE == q - SPACE;
    }
  }

  /** The code makes the same calls and returns the same, or else, when the walk wraps,
      calls back for a header that Tlv.Walk turns down. */
  predicate Agree<C(==)>(wraps: bool, calls: seq<Call>, result: (C, bool), run: Course<C>) {
    if wraps then calls < run.calls else run == Course(calls, Some(result))
  }

  predicate Meets<C(==)>(mem: Memory, a: nat, end: nat, cb: Callback<C>, ctx: C, steps: nat)
    requires a <= end && end + 8 <= SPACE
  {
    var buf := Read(mem, a, end - a);
    Agree(Wraps(buf, a, cb, ctx), Calls(buf, cb, ctx), Walk(buf, cb, ctx), Run(mem, end, cb, a, ctx, steps))
  }

  lemma MeetsShort<C>(mem: Memory, a: nat, end: nat, cb: Callback<C>, ctx: C, steps: nat)
    requires a <= end < a + 8 && end + 8 <= SPACE
    ensures Meets(mem, a, end, cb, ctx, steps)
  {
    hide Be32, Read, EntryAt, SizeAt;
    WalkStops(Read(mem, a, end - a), a, cb, ctx);
  }

  lemma MeetsStuck<C>(mem: Memory, a: nat, end: nat, cb: Callback<C>, ctx: C, steps: nat)
    requires a + 8 <= end && end + 8 <= SPACE && a + 8 + SizeAt(mem, a) > end && steps > 0
    ensures Meets(mem, a, end, cb, ctx, steps)
  {
    Front(mem, a, end);
    hide Be32, Read, EntryAt, SizeAt, EntryOf, Stuck, Run, Walk, Calls, Wraps;
    WalkStops(Read(mem, a, end - a), a, cb, ctx);
    RunRound(mem, a, end, cb, ctx, steps);
  }

  lemma MeetsRefusal<C>(mem: Memory, a: nat, end: nat, cb: Callback<C>, ctx: C, steps: nat)
    requires a + 8 + SizeAt(mem, a) <= end && end + 8 <= SPACE && steps > 0 && !cb(ctx, EntryAt(mem, a)).1
    ensures Meets(mem, a, end, cb, ctx, steps)
  {
    Front(mem, a, end);
    EntryHasSize(mem, a);
    hide Be32, Read, EntryAt, SizeAt, EntryOf, Stuck, Run, Walk, Calls, Wraps;
    WalkRound(Read(mem, a, end - a), a, cb, ctx);
    RunRound(mem, a, end, cb, ctx, steps);
  }

  lemma WalkGoesOn<C>(buf: seq<byte>, a: nat, cb: Callback<C>, ctx: C, e: Entry, rest: seq<byte>, ctx': C)
    requires !Stuck(buf) && EntryOf(buf) == e && buf[8 + |e.value|..] == rest && cb(ctx, e) == (ctx', true)
    requires a + 8 + |e.value| < SPACE
    ensures Walk(buf, cb, ctx) == Walk(rest, cb, ctx') && Calls(buf, cb, ctx) == [CallFor(e)] + Calls(rest, cb, ctx')
    ensures Wraps(buf, a, cb, ctx) == Wraps(rest, a + 8 + |e.value|, cb, ctx')
  {
    hide Be32, EntryOf, Stuck, Walk, Calls, Wraps, CallFor;
    WalkRound(buf, a, cb, ctx);
  }

  lemma WalkOn<C>(mem: Memory, a: nat, end: nat, cb: Callback<C>, ctx: C, q: nat, ctx': C)
    requires q == a + 8 + SizeAt(mem, a) <= end && end + 8 <= SPACE && cb(ctx, EntryAt(mem, a)) == (ctx', true)
    ensures var buf, rest := Read(mem, a, end - a), Read(mem, q, end - q);
            && Walk(buf, cb, ctx) == Walk(rest, cb, ctx')
            && Calls(buf, cb, ctx) == [CallFor(EntryAt(mem, a))] + Calls(rest, cb, ctx')
            && Wraps(buf, a, cb, ctx) == Wraps(rest, q, cb, ctx')
  {
    hide Be32, Read, EntryAt, SizeAt, EntryOf, Stuck, Walk, Calls, Wraps, CallFor;
    FrontOn(mem, a, end, q);
    WalkGoesOn(Read(mem, a, end - a), a, cb, ctx, EntryAt(mem, a), Read(mem, q, end - q), ctx');
  }

  lemma FrontOn(mem: Memory, a: nat, end: nat, q: nat)
    requires q == a + 8 + SizeAt(mem, a) <= end
    ensures var buf, e := Read(mem, a, end - a), EntryAt(mem, a);
            && !Stuck(buf) && EntryOf(buf) == e && q == a + 8 + |e.value| && 8 + |e.value| <= |buf|
            && buf[8 + |e.value|..] == Read(mem, q, end - q)
  {
    Front(mem, a, end);
    EntryHasSize(mem, a);
    hide Be32, Read, EntryAt, SizeAt, EntryOf, Stuck;
  }

  lemma RunOn<C>(mem: Memory, a: nat, end: nat, cb: Callback<C>, ctx: C, steps: nat, q: nat, ctx': C)
    requires q == a + 8 + SizeAt(mem, a) <= end && end + 8 <= SPACE && steps > 0
    requires cb(ctx, EntryAt(mem, a)) == (ctx', true)
    ensures Run(mem, end, cb, a, ctx, steps) == Called(CallFor(EntryAt(mem, a)), Run(mem, end, cb, q, ctx', steps - 1))
  {
    hide EntryAt, SizeAt, Run;
    RunRound(mem, a, end, cb, ctx, steps);
  }

  lemma MeetsOn<C>(mem: Memory, a: nat, end: nat, cb: Callback<C>, ctx: C, steps: nat, q: nat, ctx': C)
    requires q == a + 8 + SizeAt(mem, a) <= end && end + 8 <= SPACE && steps > 0
    requires cb(ctx, EntryAt(mem, a)) == (ctx', true) && Meets(mem, q, end, cb, ctx', steps - 1)
    ensures Meets(mem, a, end, cb, ctx, steps)
  {
    hide Be32, Read, EntryAt, SizeAt, Run, Walk, Calls, Wraps, Called, CallFor, Agree;
    WalkOn(mem, a, end, cb, ctx, q, ctx');
    RunOn(mem, a, end, cb, ctx, steps, q, ctx');
    var rest := Read(mem, q, end - q);
    Prepend(CallFor(EntryAt(mem, a)), Calls(rest, cb, ctx'), Walk(rest, cb, ctx'),
            Run(mem, end, cb, q, ctx', steps - 1), Wraps(rest, q, cb, ctx'));
  }

  lemma Prepend<C>(c: Call, calls: seq<Call>, result: (C, bool), run: Course<C>, wraps: bool)
    requires Agree(wraps, calls, result, run)
    ensures Agree(wraps, [c] + calls, result, Called(c, run))
  {
    if wraps {
      PrefixCons(c, calls, run.calls);
    }
  }

  lemma {:induction false} RunMeetsWalk<C>(mem: Memory, a: nat, end: nat, cb: Callback<C>, ctx: C, steps: nat)
    requires a <= end && end + 8 <= SPACE && steps >= end - a
    ensures Meets(mem, a, end, cb, ctx, steps)
    decreases end - a
  {
    hide Meets, SizeAt, EntryAt;
    var q, step := a + 8 + SizeAt(mem, a), cb(ctx, EntryAt(mem, a));
    if end < a + 8 {
      MeetsShort(mem, a, end, cb, ctx, steps);
    } else if q > end {
      MeetsStuck(mem, a, end, cb, ctx, steps);
    } else if !step.1 {
      MeetsRefusal(mem, a, end, cb, ctx, steps);
    } else {
      RunMeetsWalk(mem, q, end, cb, step.0, steps - 1);
      MeetsOn(mem, a, end, cb, ctx, steps, q, step.0);
    }
  }

  lemma EntryHasSize(mem: Memory, a: nat)
    ensures |EntryAt(mem, a).value| == SizeAt(mem, a)
  {
  }

  /** tlv_walk over the bytes from a up to end does what Tlv.Walk does, call by call, if and
      only if no header it reaches wraps. The buffer ends at least eight bytes below the
      top of the address space. */
  lemma WalkAgreesIff<C>(mem: Memory, a: nat, end: nat, cb: Callback<C>, ctx: C, steps: nat)
    requires a <= end && end + 8 <= SPACE && steps >= end - a
    ensures var buf := Read(mem, a, end - a);
            Run(mem, end, cb, a, ctx, steps) == Course(Calls(buf, cb, ctx), Some(Walk(buf, cb, ctx)))
            <==> !Wraps(buf, a, cb, ctx)
  {
    RunMeetsWalk(mem, a, end, cb, ctx, steps);
    hide Read, Run, Walk, Calls, Wraps;
  }

  ghost predicate Takes<C(!new)>(cb: Callback<C>, e: Entry) {
    forall c: C :: cb(c, e).1
  }

  /** A header of size 2^32 - 8 leads back to itself: as long as the callback takes it,
      the walk does not return. */
  lemma {:induction false} FixedPoint<C(!new)>(mem: Memory, p: nat, end: nat, cb: Callback<C>, ctx: C, steps: nat)
    requires p + 8 <= end && end + 8 <= SPACE && SizeAt(mem, p) == SPACE - 8 && Takes(cb, EntryAt(mem, p))
    ensures Run(mem, end, cb, p, ctx, steps).result == None
    ensures |Run(mem, end, cb, p, ctx, steps).calls| == steps
    decreases steps
  {
    hide SizeAt, EntryAt;
    if steps > 0 {
      FixedPoint(mem, p, end, cb, cb(ctx, EntryAt(mem, p)).0, steps - 1);
    }
  }

  /** Such a header at the end of a discovery message, with a key nobody knows: link.c's
      callback takes it for ever, where Tlv.Walk returns -1. */
  lemma DiscoveryDoesNotReturn(mem: Memory, a: nat, peer: Link.Peer, steps: nat)
    requires a + 16 <= SPACE && Read(mem, a, 8) == Put32(0) + Put32(0xFFFF_FFF8)
    ensures Run(mem, a + 8, Link.HandleEntry, a, peer, steps).result == None
    ensures Walk(Read(mem, a, 8), Link.HandleEntry, peer) == (peer, false)
  {
    hide Be32, Put32;
    var buf := Read(mem, a, 8);
    ReadPart(mem, a, 8, 0, 4);
    ReadPart(mem, a, 8, 4, 8);
    assert buf[..4] == Put32(0) && buf[4..8] == Put32(0xFFFF_FFF8);
    assert EntryAt(mem, a).key == 0 && SizeAt(mem, a) == SPACE - 8;
    hide EntryAt, SizeAt, Read;
    assert Takes(Link.HandleEntry, EntryAt(mem, a));
    FixedPoint(mem, a, a + 8, Link.HandleEntry, peer, steps);
    WalkStops(buf, a, Link.HandleEntry, peer);
  }

  // ---- the other size tests ------------------------------------------------------------

  /** The tests `n < len + k` of the callbacks, and `n < count * k` of the vectors, are made
      on 32-bit results: each decides as on the exact number unless that number is at
      least 2^32 and n is not below its remainder. */
  lemma SizeTestIff(n: u32, exact: nat)
    ensures (n < exact % SPACE <==> n < exact) <==> exact < SPACE || n < exact % SPACE
  {
  }
}
