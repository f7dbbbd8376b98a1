/** The bytes on the wire, spelled out: byte order, keys and headers as other implementations
    expect them. */
module WireFormat {
  import opened Bytes
  import opened Tlv
  import Link
  import Measurement
  import AudioPacket

  /** Words are written most significant byte first. */
  lemma BigEndian(short: u16, word: u32, double: u64)
    ensures Put16(short) == [short / 0x100, short % 0x100]
    ensures Put32(word) == Put16(word / 0x1_0000) + Put16(word % 0x1_0000)
    ensures Put64(double) == Put32(double / 0x1_0000_0000) + Put32(double % 0x1_0000_0000)
  {
    hide Be16, Be32, Be64;
  }

  /** The keys are four letters. */
  lemma KeysAreLetters()
    ensures Letters(KEY_TMLN) == "tmln" && Letters(KEY_SESS) == "sess" && Letters(KEY_STST) == "stst"
    ensures Letters(KEY_MEP4) == "mep4" && Letters(KEY_MEP6) == "mep6"
    ensures Letters(KEY_AEP4) == "aep4" && Letters(KEY_AEP6) == "aep6"
    ensures Letters(KEY_HT) == "__ht" && Letters(KEY_GT) == "__gt" && Letters(KEY_PGT) == "_pgt"
    ensures Letters(KEY_PI) == "__pi" && Letters(KEY_AUCA) == "auca" && Letters(KEY_AUCB) == "aucb"
  {
  }

  function Letters(key: u32): string {
    [(key / 0x100_0000) as char, (key / 0x1_0000 % 0x100) as char, (key / 0x100 % 0x100) as char, (key % 0x100) as char]
  }

  /** "_asdp_v", 1, the type, five seconds to live (none for a goodbye), group 0, the sender. */
  lemma DiscoveryHeaders(self: Link.Self, mtype: byte)
    ensures Link.StateMessage(self, mtype)[..12] == [95, 97, 115, 100, 112, 95, 118, 1, mtype, 5, 0, 0]
    ensures Link.StateMessage(self, mtype)[12..20] == self.id
    ensures Link.ByeMessage(self.id) == [95, 97, 115, 100, 112, 95, 118, 1, 3, 0, 0, 0] + self.id
  {
    hide Print, Link.StateEntries;
    var s := Link.StateMessage(self, mtype);
    assert s[..12] == s[..8] + s[8..12];
  }

  /** The state in a message: timeline, session, transport and the four endpoints, each with its
      key and length, on port 20808. */
  lemma StateLayout(self: Link.Self, mtype: byte)
    ensures Link.StateMessage(self, mtype)[20..]
         == Header(KEY_TMLN, 24) + (Put64(ToU64(self.timeline.tempo)) + Put64(ToU64(self.timeline.beatOrigin))
                                    + Put64(ToU64(self.timeline.timeOrigin)))
            + (Header(KEY_SESS, 8) + self.session
            + (Header(KEY_STST, 17) + ([if self.startstop.isPlaying then 1 else 0] + Put64(ToU64(self.startstop.beats))
                                       + Put64(ToU64(self.startstop.timestamp)))
            + (Header(KEY_MEP4, 6) + (Put32(self.ipv4) + Put16(20808))
            + (Header(KEY_MEP6, 18) + (self.ipv6 + Put16(20808))
            + (Header(KEY_AEP4, 6) + (Put32(self.ipv4) + Put16(20808))
            + (Header(KEY_AEP6, 18) + (self.ipv6 + Put16(20808))))))))
  {
    hide Put64, Put32, Put16, Header, Print, ToU64;
    var es := Link.StateEntries(self);
    assert Link.StateMessage(self, mtype)[20..] == Print(es);
    Link.TimelineParts(self.timeline);
    Link.StartStopParts(self.startstop);
    hide Link.PutTimeline, Link.PutStartStop;
    PrintSeven(es[0], es[1], es[2], es[3], es[4], es[5], es[6]);
    assert es == [es[0], es[1], es[2], es[3], es[4], es[5], es[6]];
  }

  lemma PrintSeven(a: Entry, b: Entry, c: Entry, d: Entry, e: Entry, f: Entry, g: Entry)
    ensures Print([a, b, c, d, e, f, g])
         == PrintEntry(a) + (PrintEntry(b) + (PrintEntry(c) + (PrintEntry(d) + (PrintEntry(e) + (PrintEntry(f)
            + PrintEntry(g))))))
  {
    hide Print, PrintEntry;
    var t5 := [f] + [g];
    var t4 := [e] + t5;
    var t3 := [d] + t4;
    var t2 := [c] + t3;
    var t1 := [b] + t2;
    assert [a, b, c, d, e, f, g] == [a] + t1;
    PrintCons(a, t1);
    PrintCons(b, t2);
    PrintCons(c, t3);
    PrintCons(d, t4);
    PrintCons(e, t5);
    PrintCons(f, [g]);
    PrintOne(g);
  }

  lemma PrintCons(e: Entry, es: seq<Entry>)
    ensures Print([e] + es) == PrintEntry(e) + Print(es)
  {
    assert ([e] + es)[1..] == es;
  }

  /** A ping: "_link_v", 1, type 1, and the host time; from the second on the ghost time last heard. */
  lemma PingLayout(ping: Measurement.Ping)
    ensures Measurement.PingBytes(ping)[..9] == [95, 108, 105, 110, 107, 95, 118, 1, 1]
    ensures Measurement.PingBytes(ping)[9..]
         == Header(KEY_HT, 8) + Put64(ping.ht) + if ping.pgt.Some? then Header(KEY_PGT, 8) + Put64(ToU64(ping.pgt.value)) else []
  {
    hide Put64, Header;
    Measurement.PrintPing(ping);
  }

  /** Audio messages: "chnnlsv", 1, the type, the time to live, group 0, the sender. */
  lemma AudioHeaders(mtype: byte, ttl: byte, id: LinkId)
    ensures AudioPacket.AudioHeader(mtype, ttl, id) == [99, 104, 110, 110, 108, 115, 118, 1, mtype, ttl, 0, 0] + id
  {
  }

  /** Audio itself is type 6 and not to be forwarded. */
  lemma AudioDatagramHeader(sender: LinkId, info: AudioPacket.Info, samples: seq<u16>)
    ensures AudioPacket.AudioDatagram(sender, info, samples)[..12] == [99, 104, 110, 110, 108, 115, 118, 1, 6, 0, 0, 0]
    ensures AudioPacket.AudioDatagram(sender, info, samples)[20..] == AudioPacket.AudioBody(info, samples)
  {
    hide AudioPacket.AudioBody;
  }
}
