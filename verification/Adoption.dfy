/** What a completed measurement means to a node beyond the choice of session: whose
    timeline and transport it follows, what it remembers, and when it measures next. */
module Adoption {
  import opened Bytes
  import opened SeqTools
  import opened Link
  import opened Measurement
  import opened Session

  predicate Member(p: Peer, session: LinkId) {
    p.inUse && p.sessionId == session
  }

  /** The rule by its numbers: more than half a second ahead, or less than half a second
      apart and lower by id. */
  predicate Preferred(diff: int, target: LinkId, own: LinkId) {
    diff > 500_000 || (-500_000 < diff < 500_000 && MemLess(target, own))
  }

  /** A node that switches follows the session as one of its members does whose timeline
      is the latest: timeline and start/stop both come from that member. With no member
      in the table, and without a switch, both stay. */
  lemma SwitchAdopts(s: Sup, v: int, now: nat, later: nat)
    ensures var t := MeasureDone(s, Measured(v), now, later);
            if Preferred(v - s.intercept, s.target, s.session) then
              && t.session == s.target && t.intercept == v
              && (if exists k :: 0 <= k < |s.peers| && Member(s.peers[k], s.target) then
                    exists b :: 0 <= b < |s.peers| && Member(s.peers[b], s.target)
                      && t.timeline == s.peers[b].timeline && t.startstop == s.peers[b].startstop
                      && forall k :: 0 <= k < |s.peers| && Member(s.peers[k], s.target) ==>
                           s.peers[k].timeline.timeOrigin <= s.peers[b].timeline.timeOrigin
                  else t.timeline == s.timeline && t.startstop == s.startstop)
            else
              && t.session == s.session && t.intercept == s.intercept
              && t.timeline == s.timeline && t.startstop == s.startstop
  {
    hide MemLess;
    assert now + v - (now + s.intercept) == v - s.intercept;
    var peers := MarkMeasured(s.peers, s.target, v);
    assert forall k :: 0 <= k < |peers| ==>
        && InSession(s.target)(peers[k]) == Member(s.peers[k], s.target)
        && peers[k].timeline == s.peers[k].timeline && peers[k].startstop == s.peers[k].startstop;
    var b := Best(peers, s.target, |peers|);
    hide Best;
    if b < |peers| {
      assert Member(s.peers[b], s.target);
    }
  }

  /** Success marks the members of the measured session with the result, and touches no other
      entry; failure changes nothing. */
  lemma SuccessIsRemembered(s: Sup, v: int, now: nat, later: nat)
    ensures var t := MeasureDone(s, Measured(v), now, later);
            && |t.peers| == |s.peers| && t.lastRemeasure == later && t.target == s.target && t.selfId == s.selfId
            && forall k :: 0 <= k < |s.peers| ==>
                 if Member(s.peers[k], s.target)
                 then t.peers[k] == s.peers[k].(measured := true, ghostOffset := v) else t.peers[k] == s.peers[k]
    ensures MeasureDone(s, Failed, now, later) == s
  {
    hide Best, Wins;
  }

  /** A new session is measured exactly when none of its members is marked and its founder,
      or else its first member, has an address; the address measured is that one's, and the
      target is the session. */
  lemma LaunchIff(s: Sup, i: nat)
    requires i < |s.peers| && s.peers[i].inUse
    ensures var x := s.peers[i].sessionId;
            var f := FounderSlot(s.peers, x);
            var (t, launch) := Observe(s, i);
            && f < |s.peers|
            && (launch.Some? <==> && x != s.session && s.peers[f].mep4.addr != 0
                                  && forall k :: 0 <= k < |s.peers| && Member(s.peers[k], x) ==> !s.peers[k].measured)
            && (launch.Some? ==> launch.value == Launch(s.peers[f].mep4.addr, s.peers[f].mep4.port, x))
            && t == if launch.Some? then s.(target := x) else s
  {
    var x := s.peers[i].sessionId;
    assert InSession(x)(s.peers[i]);
    var m := First(s.peers, IsMeasured(x));
    hide FounderSlot;
    assert forall k :: 0 <= k < |s.peers| ==> IsMeasured(x)(s.peers[k]) == (Member(s.peers[k], x) && s.peers[k].measured);
  }

  /** ... so a session is not measured again while one that was marked is in the table. */
  lemma MeasuredOnce(s: Sup, v: int, now: nat, later: nat, i: nat)
    requires i < |s.peers| && Member(s.peers[i], s.target)
    ensures var t := MeasureDone(s, Measured(v), now, later); Observe(t, i) == (t, None)
  {
    SuccessIsRemembered(s, v, now, later);
    LaunchIff(MeasureDone(s, Measured(v), now, later), i);
    hide MeasureDone, Observe;
  }

  /** A node that has joined a session measures it again at the first tick more than 30 s
      after it last did, if anybody of the session is in the table; a founder never does. At
      no time after a tick has it been more than 30 s. */
  lemma RemeasureIff(s: Sup, now: nat)
    requires s.lastRemeasure <= now
    ensures var (t, launch) := Remeasure(s, now);
            var f := FounderSlot(s.peers, s.session);
            && (launch.Some? <==> && s.session != s.selfId && now - s.lastRemeasure > 30_000_000
                                  && exists k :: 0 <= k < |s.peers| && Member(s.peers[k], s.session))
            && (launch.Some? ==> && f < |s.peers| && t.target == s.session
                                 && launch.value == Launch(s.peers[f].mep4.addr, s.peers[f].mep4.port, s.session))
            && (s.session != s.selfId ==> now - t.lastRemeasure <= 30_000_000)
            && t == s.(target := t.target, lastRemeasure := t.lastRemeasure)
            && (launch.None? ==> t.target == s.target)
  {
    var f := FounderSlot(s.peers, s.session);
    assert forall k :: 0 <= k < |s.peers| ==> InSession(s.session)(s.peers[k]) == Member(s.peers[k], s.session);
    hide FounderSlot;
  }
}
