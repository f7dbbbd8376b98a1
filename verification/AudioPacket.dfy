/** The audio path of link_audio.c: samples of a TDM slot are gathered into packets of
    64 and sent to subscribers; a received packet is checked, de-interleaved and pushed
    into the jitter ring of the subscription it is for. */
module AudioPacket {
  import opened Bytes
  import SeqTools
  import Tlv
  import Link
  import opened JitterRing

  const FRAMES := 64
  const FS_HZ: u32 := 48_000
  const MAX_MSG := 1200

  /** "chnnlsv" 0x01. */
  const PROTO_AUDIO: seq<byte> := [0x63, 0x68, 0x6E, 0x6E, 0x6C, 0x73, 0x76, 0x01]

  // ---- the packet --------------------------------------------------------------

  function AudioHeader(mtype: byte, ttl: byte, id: LinkId): (s: seq<byte>)
    ensures |s| == 20
  {
    PROTO_AUDIO + [mtype, ttl, 0, 0] + id
  }

  function SampleBytes(samples: seq<u16>): (s: seq<byte>)
    ensures |s| == 2 * |samples|
  {
    if samples == [] then [] else Put16(samples[0]) + SampleBytes(samples[1..])
  }

  /** What a packet says besides its samples. */
  datatype Info = Info(channel: LinkId, session: LinkId, count: u64, beats: i64, tempo: i64)

  /** The AudioBuffer body: ids, one chunk, codec, rate, mono, byte count, samples. */
  function ChunkBytes(info: Info): (s: seq<byte>)
    ensures |s| == 26
  {
    Put64(info.count) + Put16(FRAMES) + Put64(ToU64(info.beats)) + Put64(ToU64(info.tempo))
  }

  function FormatBytes(): (s: seq<byte>)
    ensures |s| == 8
  {
    [1] + Put32(FS_HZ) + [1] + Put16(2 * FRAMES)
  }

  function AudioBody(info: Info, samples: seq<u16>): seq<byte> {
    info.channel + info.session + Put32(1) + ChunkBytes(info) + FormatBytes() + SampleBytes(samples)
  }

  function AudioDatagram(sender: LinkId, info: Info, samples: seq<u16>): seq<byte> {
    AudioHeader(6, 0, sender) + AudioBody(info, samples)
  }

  /** The encoder half of send_audio_buffer_for: the datagram written into a buffer of
      1200 bytes. */
  method EncodeAudio(buf: array<byte>, sender: LinkId, info: Info, samples: array<u16>) returns (n: nat)
    requires buf.Length == MAX_MSG && samples.Length == FRAMES
    modifies buf
    ensures n <= buf.Length && buf[..n] == AudioDatagram(sender, info, samples[..])
  {
    hide AudioHeader, Put64, Put32, ChunkBytes, FormatBytes;
    n := Tlv.EmitRaw(buf, 0, AudioHeader(6, 0, sender));
    ghost var s0 := buf[..n];
    n := Tlv.EmitRaw(buf, n, info.channel);
    n := Tlv.EmitRaw(buf, n, info.session);
    n := Tlv.EmitBe32(buf, n, 1);
    ghost var s1 := buf[..n];
    n := EmitChunk(buf, n, info);
    n := EmitFormat(buf, n);
    ghost var s2 := buf[..n];
    n := EmitSamples(buf, n, samples);
    BodyGroups(s0, info, samples[..]);
  }

  lemma BodyGroups(s: seq<byte>, info: Info, samples: seq<u16>)
    ensures s + AudioBody(info, samples)
         == s + info.channel + info.session + Put32(1) + ChunkBytes(info) + FormatBytes() + SampleBytes(samples)
  {
    hide Put32, ChunkBytes, FormatBytes, SampleBytes;
  }

  method EmitChunk(buf: array<byte>, p: nat, info: Info) returns (q: nat)
    requires p + 26 <= buf.Length
    modifies buf
    ensures q == p + 26 && buf[..q] == old(buf[..p]) + ChunkBytes(info)
  {
    hide Put64, Put16;
    ghost var s := buf[..p];
    q := Tlv.EmitBe64(buf, p, info.count);
    q := Tlv.EmitBe16(buf, q, FRAMES);
    q := Tlv.EmitBe64(buf, q, ToU64(info.beats));
    q := Tlv.EmitBe64(buf, q, ToU64(info.tempo));
    Tlv.Regroup(s, Put64(info.count), Put16(FRAMES), Put64(ToU64(info.beats)), Put64(ToU64(info.tempo)));
    SeqTools.Assoc(Put64(info.count) + Put16(FRAMES), Put64(ToU64(info.beats)), Put64(ToU64(info.tempo)));
    SeqTools.Assoc(Put64(info.count), Put16(FRAMES), Put64(ToU64(info.beats)) + Put64(ToU64(info.tempo)));
    SeqTools.Assoc(Put16(FRAMES), Put64(ToU64(info.beats)), Put64(ToU64(info.tempo)));
  }

  method EmitFormat(buf: array<byte>, p: nat) returns (q: nat)
    requires p + 8 <= buf.Length
    modifies buf
    ensures q == p + 8 && buf[..q] == old(buf[..p]) + FormatBytes()
  {
    hide Put32, Put16;
    q := Tlv.EmitRaw(buf, p, [1]);
    q := Tlv.EmitBe32(buf, q, FS_HZ);
    q := Tlv.EmitRaw(buf, q, [1]);
    q := Tlv.EmitBe16(buf, q, 2 * FRAMES);
  }

  lemma {:induction false} SampleBytesSnoc(samples: seq<u16>, v: u16)
    ensures SampleBytes(samples + [v]) == SampleBytes(samples) + Put16(v)
    decreases |samples|
  {
    hide Put16;
    if samples == [] {
      assert samples + [v] == [v];
      assert [v][1..] == [];
    } else {
      SampleBytesSnoc(samples[1..], v);
      assert (samples + [v])[1..] == samples[1..] + [v];
      SeqTools.Assoc(Put16(samples[0]), SampleBytes(samples[1..]), Put16(v));
    }
  }

  method EmitSamples(buf: array<byte>, p: nat, samples: array<u16>) returns (q: nat)
    requires p + 2 * samples.Length <= buf.Length
    modifies buf
    ensures q == p + 2 * samples.Length && buf[..q] == old(buf[..p]) + SampleBytes(samples[..])
  {
    hide Put16, SampleBytes;
    NoSampleBytes();
    q := p;
    for i := 0 to samples.Length
      invariant q == p + 2 * i && buf[..q] == old(buf[..p]) + SampleBytes(samples[..i])
    {
      SampleBytesSnoc(samples[..i], samples[i]);
      assert samples[..i + 1] == samples[..i] + [samples[i]];
      q := Tlv.EmitBe16(buf, q, samples[i]);
    }
    assert samples[..] == samples[..samples.Length];
  }

  lemma NoSampleBytes()
    ensures SampleBytes([]) == []
  {
  }

  // ---- reception ------------------------------------------------------------------

  /** The frames announced by a number of chunks, in the 16-bit counter of the code. */
  function TotalFrames(chunks: seq<byte>, count: nat): u16
    requires |chunks| == 26 * count
    decreases count
  {
    if count == 0 then 0
    else (TotalFrames(chunks[..26 * (count - 1)], count - 1) + Be16(chunks[26 * count - 18..26 * count - 16])) % 0x1_0000
  }

  /** Channel 0 of the frames in an interleaved payload. */
  function Deinterleaved(payload: seq<byte>, chans: nat, frames: nat): (s: seq<u16>)
    requires frames * chans * 2 <= |payload| && chans >= 1
    ensures |s| == frames
    decreases frames
  {
    if frames == 0 then []
    else
      FrameInside(chans, frames);
      Deinterleaved(payload, chans, frames - 1)
        + [Be16(payload[(frames - 1) * chans * 2..(frames - 1) * chans * 2 + 2])]
  }

  lemma FrameInside(chans: nat, frames: nat)
    requires chans >= 1 && frames >= 1
    ensures (frames - 1) * chans * 2 + 2 <= frames * chans * 2
  {
    assert frames * chans == (frames - 1) * chans + chans;
  }

  /** A packet the receiver takes: whom it is for, its channels, channel 0's samples. */
  datatype Block = Block(channel: LinkId, session: LinkId, chans: byte, samples: seq<u16>)

  /** The checks of handle_audio_buffer on the body of a datagram. */
  function ParseBody(p: seq<byte>): Option<Block> {
    if |p| < 54 then None
    else
      var count := Be32(p[16..20]);
      if count == 0 || |p| - 20 < 26 * count then None
      else
        var q := p[20 + 26 * count..];
        if |q| < 8 then None
        else
          var frames := TotalFrames(p[20..20 + 26 * count], count);
          var codec, chans, bytes := q[0], q[5], Be16(q[6..8]);
          if codec != 1 || chans == 0 || frames * chans * 2 != bytes || |q| - 8 < bytes then None
          else Some(Block(p[..8], p[8..16], chans, Deinterleaved(q[8..], chans, frames)))
  }

  /** The dispatch of link_audio_handle_rx to handle_audio_buffer. */
  function AudioBodyOf(buf: seq<byte>, selfId: LinkId): Option<seq<byte>> {
    if |buf| < 20 || buf[..8] != PROTO_AUDIO || buf[12..20] == selfId || buf[8] != 6 then None
    else Some(buf[20..])
  }

  /** The samples a node in a session takes from a datagram for its subscription to a
      channel. */
  function Taken(buf: seq<byte>, selfId: LinkId, session: LinkId, channel: LinkId): seq<u16> {
    var body := AudioBodyOf(buf, selfId);
    if body.None? then []
    else
      var block := ParseBody(body.value);
      if block.None? || block.value.session != session || block.value.channel != channel then []
      else block.value.samples
  }

  function PushAll(c: seq<u16>, samples: seq<u16>): seq<u16>
    decreases |samples|
  {
    if samples == [] then c else PushAll(Newest(c + [samples[0]]), samples[1..])
  }

  /** While they fit, pushed samples are appended. */
  lemma {:induction false} PushAllFits(c: seq<u16>, samples: seq<u16>)
    requires |c| + |samples| <= LEN
    ensures PushAll(c, samples) == c + samples
    decreases |samples|
  {
    if samples == [] {
      assert c + samples == c;
    } else {
      PushAllFits(c + [samples[0]], samples[1..]);
      assert c + [samples[0]] + samples[1..] == c + samples;
    }
  }

  /** One subscription of link_audio_subs. */
  class Subscription {
    const channel: LinkId
    const ring: Jitter
    var lastCount: nat
    var numChanRemote: byte

    constructor (channel: LinkId)
      ensures this.channel == channel && fresh(ring) && fresh(ring.jbuf)
      ensures Valid(ring.Abs()) && Contents(ring.Abs()) == [] && lastCount == 0
    {
      this.channel, lastCount, numChanRemote := channel, 0, 0;
      ring := new Jitter();
    }

    /** The chunk loop of handle_audio_buffer. */
    static method CountFrames(chunks: seq<byte>, count: nat) returns (total: u16)
      requires |chunks| == 26 * count
      ensures total == TotalFrames(chunks, count)
    {
      total := 0;
      for i := 0 to count
        invariant total == TotalFrames(chunks[..26 * i], i)
      {
        assert chunks[..26 * (i + 1)][..26 * i] == chunks[..26 * i];
        assert chunks[..26 * (i + 1)][26 * (i + 1) - 18..26 * (i + 1) - 16] == chunks[26 * i + 8..26 * i + 10];
        total := (total + Be16(chunks[26 * i + 8..26 * i + 10])) % 0x1_0000;
      }
      assert chunks[..26 * count] == chunks;
    }

    /** The frame loop of handle_audio_buffer. */
    method PushFrames(payload: seq<byte>, chans: nat, frames: nat)
      requires frames * chans * 2 <= |payload| && chans >= 1 && Valid(ring.Abs())
      modifies ring, ring.jbuf
      ensures Valid(ring.Abs())
      ensures Contents(ring.Abs()) == PushAll(old(Contents(ring.Abs())), Deinterleaved(payload, chans, frames))
    {
      hide Newest;
      ghost var all := Deinterleaved(payload, chans, frames);
      for f := 0 to frames
        invariant f * chans * 2 <= |payload| && Valid(ring.Abs())
        invariant Contents(ring.Abs()) == PushAll(old(Contents(ring.Abs())), Deinterleaved(payload, chans, f))
      {
        FrameInside(chans, f + 1);
        FramesInside(chans, f + 1, frames);
        var v := Be16(payload[f * chans * 2..f * chans * 2 + 2]);
        ring.PushSample(v);
        PushAllSnoc(old(Contents(ring.Abs())), Deinterleaved(payload, chans, f), v);
      }
    }

    /** handle_audio_buffer, for the subscription to its own channel: whether the
        packet is taken. */
    method HandleAudioBuffer(body: seq<byte>, session: LinkId) returns (taken: bool)
      requires Valid(ring.Abs())
      modifies this, ring, ring.jbuf
      ensures Valid(ring.Abs())
      ensures var block := ParseBody(body);
              && taken == (block.Some? && block.value.session == session && block.value.channel == channel)
              && Contents(ring.Abs()) == (if taken then PushAll(old(Contents(ring.Abs())), block.value.samples)
                                          else old(Contents(ring.Abs())))
              && lastCount == old(lastCount) + (if taken then 1 else 0)
              && numChanRemote == if taken then block.value.chans else old(numChanRemote)
    {
      hide PushAll, Contents, TotalFrames, Deinterleaved, Newest;
      if |body| < 54 { return false; }
      var channelId, sessionId := body[..8], body[8..16];
      var count: nat := Be32(body[16..20]);
      if count == 0 || |body| - 20 < 26 * count { return false; }
      var total: nat := CountFrames(body[20..20 + 26 * count], count);
      var q := body[20 + 26 * count..];
      if |q| < 8 { return false; }
      var codec, numChan, bytes := q[0], q[5], Be16(q[6..8]);
      var chans: nat := numChan;
      if codec != 1 { return false; }
      if chans == 0 { return false; }
      if total * chans * 2 != bytes { return false; }
      if |q| - 8 < bytes { return false; }
      if sessionId != session { return false; }
      if channelId != channel { return false; }
      numChanRemote := numChan;
      PushFrames(q[8..], chans, total);
      lastCount := lastCount + 1;
      return true;
    }
  }

  lemma FramesInside(chans: nat, f: nat, frames: nat)
    requires f <= frames
    ensures f * chans * 2 <= frames * chans * 2
  {
    assert frames * chans == f * chans + (frames - f) * chans;
  }

  lemma {:induction false} PushAllSnoc(c: seq<u16>, samples: seq<u16>, v: u16)
    ensures PushAll(c, samples + [v]) == Newest(PushAll(c, samples) + [v])
    decreases |samples|
  {
    hide Newest;
    if samples == [] {
      assert samples + [v] == [v] && [v][1..] == [];
    } else {
      PushAllSnoc(Newest(c + [samples[0]]), samples[1..], v);
      assert (samples + [v])[1..] == samples[1..] + [v];
    }
  }

  // ---- the packet round trip --------------------------------------------------------

  lemma {:induction false} SampleBytesAt(samples: seq<u16>, i: nat)
    requires i < |samples|
    ensures SampleBytes(samples)[2 * i..2 * i + 2] == Put16(samples[i])
    decreases |samples|
  {
    hide Put16;
    if i > 0 {
      SampleBytesAt(samples[1..], i - 1);
      assert SampleBytes(samples)[2..] == SampleBytes(samples[1..]);
      assert SampleBytes(samples)[2 * i..2 * i + 2] == SampleBytes(samples)[2..][2 * (i - 1)..2 * (i - 1) + 2];
    }
  }

  lemma {:induction false} DeinterleavedMono(samples: seq<u16>, n: nat)
    requires n <= |samples|
    ensures Deinterleaved(SampleBytes(samples), 1, n) == samples[..n]
    decreases n
  {
    hide SampleBytes, Put16, Be16;
    if n > 0 {
      DeinterleavedMono(samples, n - 1);
      SampleBytesAt(samples, n - 1);
      ReadBack(samples[n - 1]);
      assert samples[..n] == samples[..n - 1] + [samples[n - 1]];
    }
  }

  lemma ReadBack(v: u16)
    ensures Be16(Put16(v)) == v
  {
  }

  /** One chunk of 64 frames announces 64 frames. */
  lemma OneChunk(info: Info, count: nat)
    requires count == 1
    ensures TotalFrames(ChunkBytes(info), count) == FRAMES
  {
    hide Put64;
    assert ChunkBytes(info)[8..10] == Put16(FRAMES);
    assert 26 * count - 18 == 8 && 26 * count - 16 == 10;
  }

  lemma FormatFields(q: seq<byte>, rest: seq<byte>)
    requires q == FormatBytes() + rest
    ensures |q| >= 8 && q[0] == 1 && q[5] == 1 && Be16(q[6..8]) == 2 * FRAMES && q[8..] == rest
  {
    hide Put32;
    assert q[6..8] == Put16(2 * FRAMES);
  }

  lemma BodyFields(info: Info, samples: seq<u16>)
    ensures var p := AudioBody(info, samples);
            && |p| >= 54 && p[..8] == info.channel && p[8..16] == info.session && Be32(p[16..20]) == 1
            && p[20..46] == ChunkBytes(info) && p[46..] == FormatBytes() + SampleBytes(samples)
  {
    hide ChunkBytes, FormatBytes, SampleBytes;
    var p := AudioBody(info, samples);
    assert p[16..20] == Put32(1);
  }

  /** The audio packet round trip: what a receiver reads off an encoded packet is the
      sender's channel and session, and exactly the 64 samples, in order. */
  lemma AudioRoundTrip(info: Info, samples: seq<u16>)
    requires |samples| == FRAMES
    ensures ParseBody(AudioBody(info, samples)) == Some(Block(info.channel, info.session, 1, samples))
  {
    hide AudioBody, ChunkBytes, FormatBytes, SampleBytes, TotalFrames, Deinterleaved;
    BodyFields(info, samples);
    var p := AudioBody(info, samples);
    FormatFields(p[46..], SampleBytes(samples));
    OneChunk(info, Be32(p[16..20]));
    DeinterleavedMono(samples, FRAMES);
    assert samples[..FRAMES] == samples;
  }

  /** ... and so a node in the sender's session, subscribed to the channel, takes them;
      a node in another session, or subscribed to another channel, takes nothing. */
  lemma DatagramTaken(sender: LinkId, info: Info, samples: seq<u16>, selfId: LinkId, session: LinkId, channel: LinkId)
    requires |samples| == FRAMES && selfId != sender
    ensures Taken(AudioDatagram(sender, info, samples), selfId, session, channel)
         == if session == info.session && channel == info.channel then samples else []
  {
    AudioRoundTrip(info, samples);
    BodyOfDatagram(sender, info, samples, selfId);
    hide AudioBody, ParseBody, AudioBodyOf, AudioDatagram;
  }

  lemma BodyOfDatagram(sender: LinkId, info: Info, samples: seq<u16>, selfId: LinkId)
    requires selfId != sender
    ensures AudioBodyOf(AudioDatagram(sender, info, samples), selfId) == Some(AudioBody(info, samples))
  {
    hide AudioBody;
    var buf := AudioDatagram(sender, info, samples);
    assert buf[..8] == PROTO_AUDIO && buf[8] == 6 && buf[12..20] == sender;
    assert buf[20..] == AudioBody(info, samples);
  }

  // ---- what others read off a packet ---------------------------------------------------

  /** The fields of the body where the protocol has them: number of the packet, 64 frames, beat
      position and tempo, PCM, 48 kHz, one channel, 128 bytes. */
  lemma PacketFields(info: Info, samples: seq<u16>)
    requires |samples| == 64
    ensures var p := AudioBody(info, samples);
            && |p| == 182 && p[..8] == info.channel && p[8..16] == info.session && Be32(p[16..20]) == 1
            && Be64(p[20..28]) == info.count && Be16(p[28..30]) == 64
            && ToI64(Be64(p[30..38])) == info.beats && ToI64(Be64(p[38..46])) == info.tempo
            && p[46] == 1 && Be32(p[47..51]) == 48_000 && p[51] == 1 && Be16(p[52..54]) == 128
  {
    var p := AudioBody(info, samples);
    BodyFields(info, samples);
    var chunk, format := ChunkBytes(info), FormatBytes();
    assert chunk[..8] == Put64(info.count) && chunk[8..10] == Put16(FRAMES);
    assert chunk[10..18] == Put64(ToU64(info.beats)) && chunk[18..26] == Put64(ToU64(info.tempo));
    assert format[1..5] == Put32(FS_HZ) && format[6..8] == Put16(2 * FRAMES);
    hide AudioBody, ChunkBytes, FormatBytes, Put16, Put32, Put64, Be16, Be32, Be64, SampleBytes;
    assert p[20..28] == p[20..46][..8] && p[28..30] == p[20..46][8..10];
    assert p[30..38] == p[20..46][10..18] && p[38..46] == p[20..46][18..26];
    assert p[46..][..8] == format;
    assert p[47..51] == format[1..5] && p[52..54] == format[6..8] && p[46] == format[0] && p[51] == format[5];
  }

  /** The beat position in a packet is that of its first sample, 64 / 48000 s before the last. */
  lemma PacketBeatsMean(t: Link.Timeline, g: int)
    requires t.tempo != 0
    ensures PacketBeats(t, g) == Link.BeatsAt(t, g - 1333)
  {
    hide Link.BeatsAt;
  }

  /** The datagrams that reach handle_audio_buffer: protocol "chnnlsv", 1, type 6, another sender. */
  lemma AudioBodyIff(buf: seq<byte>, selfId: LinkId)
    ensures AudioBodyOf(buf, selfId)
         == if |buf| >= 20 && buf[..9] == [0x63, 0x68, 0x6E, 0x6E, 0x6C, 0x73, 0x76, 1, 6] && buf[12..20] != selfId
            then Some(buf[20..]) else None
  {
    assert |buf| >= 9 ==> buf[..9] == buf[..8] + [buf[8]];
  }

  /** A body is accepted exactly when it has a chunk, all its chunks, its format and its payload,
      the codec is PCM, there is a channel, and the byte count is two for every channel of every
      frame announced. */
  lemma ParseBodyIff(p: seq<byte>)
    ensures ParseBody(p).Some? <==>
            && |p| >= 54
            && var n := Be32(p[16..20]);
            && n >= 1 && 28 + 26 * n <= |p|
            && p[20 + 26 * n] == 1 && p[25 + 26 * n] != 0
            && var bytes := Be16(p[26 + 26 * n..28 + 26 * n]);
            && TotalFrames(p[20..20 + 26 * n], n) * p[25 + 26 * n] * 2 == bytes
            && 28 + 26 * n + bytes <= |p|
  {
    if |p| >= 54 {
      var n := Be32(p[16..20]);
      if 28 + 26 * n <= |p| {
        var q := p[20 + 26 * n..];
        assert q[6..8] == p[26 + 26 * n..28 + 26 * n];
      }
    }
    hide TotalFrames, Deinterleaved, Be16, Be32;
  }

  function Sum(counts: seq<u16>): nat {
    if counts == [] then 0 else Sum(counts[..|counts| - 1]) + counts[|counts| - 1]
  }

  /** The frame counts of the chunks, as the protocol has them. */
  function FrameCounts(chunks: seq<byte>, count: nat): (c: seq<u16>)
    requires |chunks| == 26 * count
    ensures |c| == count
  {
    seq(count, i requires 0 <= i < count => Be16(chunks[26 * i + 8..26 * i + 10]))
  }

  lemma CountsSnoc(chunks: seq<byte>, count: nat)
    requires count >= 1 && |chunks| == 26 * count
    ensures var c := FrameCounts(chunks, count);
            c[..count - 1] == FrameCounts(chunks[..26 * (count - 1)], count - 1)
            && c[count - 1] == Be16(chunks[26 * count - 18..26 * count - 16])
  {
    hide Be16;
    var rest := chunks[..26 * (count - 1)];
    forall i | 0 <= i < count - 1
      ensures rest[26 * i + 8..26 * i + 10] == chunks[26 * i + 8..26 * i + 10]
    {
    }
  }

  lemma SumsModulo(a: nat, b: nat)
    ensures (a % 0x1_0000 + b) % 0x1_0000 == (a + b) % 0x1_0000
  {
  }

  /** The frames announced are the sum over all chunks, modulo 2^16. */
  lemma {:induction false} TotalIsSum(chunks: seq<byte>, count: nat)
    requires |chunks| == 26 * count
    ensures TotalFrames(chunks, count) == Sum(FrameCounts(chunks, count)) % 0x1_0000
    decreases count
  {
    hide Be16;
    if count > 0 {
      var rest := chunks[..26 * (count - 1)];
      TotalIsSum(rest, count - 1);
      CountsSnoc(chunks, count);
      hide FrameCounts;
      SumsModulo(Sum(FrameCounts(rest, count - 1)), Be16(chunks[26 * count - 18..26 * count - 16]));
    }
  }

  /** An interleaved payload: the frames one after another, each a sample per channel. */
  function Interleaved(frames: seq<seq<u16>>): seq<u16> {
    if frames == [] then [] else frames[0] + Interleaved(frames[1..])
  }

  lemma {:induction false} InterleavedAt(frames: seq<seq<u16>>, chans: nat, f: nat)
    requires chans >= 1 && f < |frames| && forall i :: 0 <= i < |frames| ==> |frames[i]| == chans
    ensures |Interleaved(frames)| == |frames| * chans && f * chans < |frames| * chans
    ensures Interleaved(frames)[f * chans] == frames[f][0]
    decreases |frames|
  {
    var rest := frames[1..];
    LengthOfRest(frames, chans);
    if f > 0 {
      InterleavedAt(rest, chans, f - 1);
      assert f * chans == (f - 1) * chans + chans;
      assert rest[f - 1] == frames[f];
    }
  }

  lemma {:induction false} LengthOfRest(frames: seq<seq<u16>>, chans: nat)
    requires forall i :: 0 <= i < |frames| ==> |frames[i]| == chans
    ensures |Interleaved(frames)| == |frames| * chans
    decreases |frames|
  {
    if frames != [] {
      LengthOfRest(frames[1..], chans);
    }
  }

  /** Of a packet with several channels the receiver plays the first: sample 0 of every frame. */
  lemma {:induction false} FirstChannelPlayed(frames: seq<seq<u16>>, chans: nat, n: nat)
    requires chans >= 1 && n <= |frames| && forall i :: 0 <= i < |frames| ==> |frames[i]| == chans
    requires n * chans * 2 <= |SampleBytes(Interleaved(frames))|
    ensures Deinterleaved(SampleBytes(Interleaved(frames)), chans, n) == seq(n, i requires 0 <= i < n => frames[i][0])
    decreases n
  {
    if n > 0 {
      FrameInside(chans, n);
      hide SampleBytes, Interleaved, Put16, Be16;
      FirstChannelPlayed(frames, chans, n - 1);
      SampleOfFrame(frames, chans, n - 1);
      var payload := SampleBytes(Interleaved(frames));
      assert Deinterleaved(payload, chans, n) == Deinterleaved(payload, chans, n - 1) + [frames[n - 1][0]];
    }
  }

  lemma SampleOfFrame(frames: seq<seq<u16>>, chans: nat, f: nat)
    requires chans >= 1 && f < |frames| && forall i :: 0 <= i < |frames| ==> |frames[i]| == chans
    ensures var payload := SampleBytes(Interleaved(frames));
            f * chans * 2 + 2 <= |payload| && Be16(payload[f * chans * 2..f * chans * 2 + 2]) == frames[f][0]
  {
    hide SampleBytes, Interleaved, Put16, Be16;
    InterleavedAt(frames, chans, f);
    var all, at := Interleaved(frames), f * chans;
    SampleBytesAt(all, at);
    ReadBack(all[at]);
    assert 2 * at == f * chans * 2;
  }

  // ---- the packetiser --------------------------------------------------------------

  /** One local channel with its packet buffer: the samples waiting, how many packets
      have been sent, and whether anybody subscribes. */
  datatype Lane = Lane(pending: seq<u16>, sendCount: u64, subscribed: bool)

  /** One captured sample; the count and samples of the packet sent, if one is. */
  function Capture(s: Lane, v: u16): (Lane, Option<(u64, seq<u16>)>) {
    var all := s.pending + [v];
    if |all| < FRAMES then (s.(pending := all), None)
    else if !s.subscribed then (s.(pending := []), None)
    else (s.(pending := [], sendCount := (s.sendCount + 1) % 0x1_0000_0000_0000_0000), Some((s.sendCount, all)))
  }

  /** The beat position written into a packet captured up to ghost time g. */
  function PacketBeats(t: Link.Timeline, g: int): int
    requires t.tempo != 0
  {
    Link.BeatsAt(t, g - FRAMES * 1_000_000 / FS_HZ)
  }

  class Packetiser {
    const channel: LinkId
    const buf: array<u16>
    var pos: nat
    var sendCount: u64
    var subscribers: nat

    ghost predicate Ok()
      reads this
    {
      buf.Length == FRAMES && pos < FRAMES
    }

    ghost function Abs(): Lane
      requires Ok()
      reads this, buf
    {
      Lane(buf[..pos], sendCount, subscribers > 0)
    }

    constructor (channel: LinkId)
      ensures Ok() && fresh(buf) && this.channel == channel && Abs() == Lane([], 0, false)
    {
      this.channel, pos, sendCount, subscribers := channel, 0, 0, 0;
      buf := new u16[FRAMES];
    }

    /** The capture half of link_audio_on_tdm_frame for this channel: the datagram sent
        to every subscriber, if the packet is complete and there is one. */
    method OnFrame(v: u16, sender: LinkId, session: LinkId, timeline: Link.Timeline, g: int)
      returns (sent: Option<seq<byte>>)
      requires Ok() && timeline.tempo != 0 && InI64(PacketBeats(timeline, g))
      modifies this, buf
      ensures Ok() && subscribers == old(subscribers)
      ensures var c := Capture(old(Abs()), v);
              && Abs() == c.0
              && sent == if c.1.None? then None
                         else Some(AudioDatagram(sender, Info(channel, session, c.1.value.0,
                                                              PacketBeats(timeline, g), timeline.tempo),
                                                 c.1.value.1))
    {
      hide AudioDatagram, PacketBeats;
      sent := None;
      buf[pos] := v;
      assert buf[..pos + 1] == old(buf[..pos]) + [v];
      if pos + 1 < FRAMES {
        pos := pos + 1;
      } else {
        assert buf[..] == buf[..pos + 1];
        if subscribers > 0 {
          var out := new byte[MAX_MSG];
          var beats: i64 := PacketBeats(timeline, g);
          var n := EncodeAudio(out, sender, Info(channel, session, sendCount, beats, timeline.tempo), buf);
          sent := Some(out[..n]);
          sendCount := (sendCount + 1) % 0x1_0000_0000_0000_0000;
        }
        pos := 0;
      }
    }
  }
}
