/** Which datagrams count as PINGs and PONGs, for every datagram whatever: the responder's and
    the measurer's side of measurement_responder.c and measurement.c. */
module PongParsing {
  import opened Bytes
  import opened Tlv
  import opened Measurement
  import opened Discovery

  predicate IsStamp(key: u32) {
    key == KEY_HT || key == KEY_GT || key == KEY_PGT || key == KEY_SESS
  }

  /** Every entry the measurer knows takes eight bytes. */
  ghost predicate EightBytes(es: seq<Entry>) {
    forall i :: 0 <= i < |es| && IsStamp(es[i].key) ==> |es[i].value| == 8
  }

  /** The signed number last given for a key, 0 for none. */
  function Stamp(es: seq<Entry>, key: u32): i64 {
    if Has(Latest(es, key), 8) then ToI64(Be64(Latest(es, key).value)) else 0
  }

  function Context(es: seq<Entry>): PongCtx {
    PongCtx(Stamp(es, KEY_HT), Stamp(es, KEY_GT), Stamp(es, KEY_PGT),
            Latest(es, KEY_HT).Some?, Latest(es, KEY_GT).Some?, Latest(es, KEY_PGT).Some?,
            if Has(Latest(es, KEY_SESS), 8) then Latest(es, KEY_SESS).value else ZERO_ID, Latest(es, KEY_SESS).Some?)
  }

  lemma LatestHasEight(es: seq<Entry>, key: u32)
    requires EightBytes(es) && IsStamp(key)
    ensures Latest(es, key).Some? ==> Has(Latest(es, key), 8)
    decreases |es|
  {
    if es != [] {
      LatestHasEight(es[..|es| - 1], key);
    }
  }

  lemma {:induction false} ContextStep(es: seq<Entry>, e: Entry)
    requires EightBytes(es)
    ensures if IsStamp(e.key) && |e.value| != 8 then PongHandler(Context(es), e) == (Context(es), false)
            else PongHandler(Context(es), e) == (Context(es + [e]), true)
  {
    assert (es + [e])[..|es|] == es;
    LatestHasEight(es, KEY_HT);
    LatestHasEight(es, KEY_GT);
    LatestHasEight(es, KEY_PGT);
    LatestHasEight(es, KEY_SESS);
    hide Be64, ToI64;
  }

  /** The walk takes the entries of a payload exactly when those it knows have eight bytes, and then
      holds the last of each. */
  lemma {:induction false} FeedContext(es: seq<Entry>)
    ensures if EightBytes(es) then Feed(PongHandler, EMPTY_CTX, es) == (Context(es), true)
            else !Feed(PongHandler, EMPTY_CTX, es).1
    decreases |es|
  {
    if es == [] {
      FeedNothing(PongHandler, EMPTY_CTX);
    } else {
      var rest, e := es[..|es| - 1], es[|es| - 1];
      assert es == rest + [e];
      FeedContext(rest);
      FeedSnoc(PongHandler, EMPTY_CTX, rest, e);
      hide Context, PongHandler, Feed;
      if EightBytes(rest) {
        ContextStep(rest, e);
        assert EightBytes(es) <==> !(IsStamp(e.key) && |e.value| != 8);
      }
    }
  }

  lemma OthersAreNotPongs(buf: seq<byte>)
    requires !LooksLike(buf, 2)
    ensures ParsePong(buf) == None
  {
    hide Walk;
    assert |buf| >= 9 ==> buf[..9] == buf[..8] + [buf[8]];
  }

  /** A datagram headed as a PONG is a usable one if and only if the rest is a list of entries and
      nothing else, those with a known key have eight bytes, and there is a host time, a ghost time
      and a session; it then says what the last entry of each key says. */
  lemma ParsePongIff(payload: seq<byte>)
    ensures var es, pong := Scan(payload), ParsePong(Head(2) + payload);
            && (pong.Some? <==> && payload == Print(es) && EightBytes(es) && Latest(es, KEY_HT).Some?
                                && Latest(es, KEY_GT).Some? && Latest(es, KEY_SESS).Some?)
            && (pong.Some? ==> pong.value == Context(es))
  {
    var buf := Head(2) + payload;
    assert buf[9..] == payload && buf[..8] == PROTO_LINK && buf[8] == 2;
    WalkContext(payload);
    ContextHas(Scan(payload));
    hide Walk, Scan, Print, PongHandler, Latest, Context, EightBytes;
  }

  lemma ContextHas(es: seq<Entry>)
    ensures Context(es).haveHt == Latest(es, KEY_HT).Some? && Context(es).haveGt == Latest(es, KEY_GT).Some?
    ensures Context(es).haveSess == Latest(es, KEY_SESS).Some?
  {
    hide Latest;
  }

  lemma WalkContext(payload: seq<byte>)
    ensures var es, walked := Scan(payload), Walk(payload, PongHandler, EMPTY_CTX);
            && (walked.1 <==> payload == Print(es) && EightBytes(es))
            && (walked.1 ==> walked.0 == Context(es))
  {
    WalkGrammar(payload, PongHandler, EMPTY_CTX);
    FeedContext(Scan(payload));
    hide Walk, Scan, Print, Feed, PongHandler, Context, EightBytes;
  }

  /** A responder answers exactly the PINGs whose payload fits its 512 bytes beside what it adds, and
      echoes the payload to the byte, behind its own session and ghost time. */
  lemma RespondIff(buf: seq<byte>, session: LinkId, stamp: u64)
    ensures Respond(buf, session, stamp).Some? <==> LooksLike(buf, 1) && |buf| <= 480
    ensures Respond(buf, session, stamp).Some? ==>
              var pong := Respond(buf, session, stamp).value;
              && LooksLike(pong, 2) && |pong| == |buf| + 32
              && Scan(pong[9..41]) == [Entry(KEY_SESS, session), Entry(KEY_GT, Put64(stamp))]
              && pong[41..] == buf[9..]
  {
    assert |buf| >= 9 ==> buf[..9] == buf[..8] + [buf[8]];
    var head := PongHead(session, stamp);
    PrintPongHead(session, stamp);
    var printed := Print(head);
    assert |printed| == 32;
    if Respond(buf, session, stamp).Some? {
      var pong := Respond(buf, session, stamp).value;
      assert pong[..9] == PROTO_LINK + [2] && pong[9..41] == printed && pong[41..] == buf[9..];
      assert printed + [] == printed;
      ScanPrinted(head, []);
    }
  }

  /** So two nodes never answer each other's answers. */
  lemma PongsAreNotAnswered(buf: seq<byte>, session: LinkId, stamp: u64, other: LinkId, later: u64)
    requires Respond(buf, session, stamp).Some?
    ensures Respond(Respond(buf, session, stamp).value, other, later) == None
  {
    RespondIff(buf, session, stamp);
    RespondIff(Respond(buf, session, stamp).value, other, later);
    hide Respond;
  }
}
