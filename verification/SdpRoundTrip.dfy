/** Reading back what getSdp prints (orbit/sdp_info.cc:302-566, 728-1058). */
module SdpRoundTrip {
  import opened SdpText
  import opened Candidates
  import opened SdpState
  import opened SdpPrint
  import opened SdpLines
  import opened SdpEffects
  import opened SdpClean
  import opened SdpSections
  import opened SdpCodecs

  // ---------------------------------------------------------------- SSRC lines

  function First(own: nat, ssrc: nat): nat {
    if own != 0 then own else ssrc
  }

  function AfterSsrc(p: Parse, ssrc: nat): Parse {
    WithSide(p, SideOf(p).(ssrc := First(SideOf(p).ssrc, ssrc)))
  }

  lemma SsrcStep(p: Parse, table: seq<RtpMap>, ssrc: nat, attribute: string)
    requires p.mtype != OTHER
    ensures Effect(p, table, Ssrc(ssrc, attribute)) == AfterSsrc(p, ssrc)
    ensures AfterSsrc(AfterSsrc(p, ssrc), ssrc) == AfterSsrc(p, ssrc)
    ensures AfterSsrc(p, ssrc).mtype == p.mtype
    ensures AfterSsrc(p, 0) == p
  {}

  lemma ReplaySsrc(p: Parse, table: seq<RtpMap>, ssrc: nat, cname: string, msid: string, name: string)
    requires p.mtype != OTHER
    ensures Replay(p, table, SsrcItems(ssrc, cname, msid, name)) == AfterSsrc(p, ssrc)
  {
    hide Replay, Effect, AfterSsrc;
    var a, b := Ssrc(ssrc, "cname:" + cname), Ssrc(ssrc, "msid:" + msid + " " + name);
    var c, d := Ssrc(ssrc, "mslabel:" + msid), Ssrc(ssrc, "label:" + msid + name);
    var q := AfterSsrc(p, ssrc);
    ReplayOne(p, table, a);
    SsrcStep(p, table, ssrc, a.attribute);
    ReplaySnoc(p, table, [a], b);
    SsrcStep(q, table, ssrc, b.attribute);
    ReplaySnoc(p, table, [a, b], c);
    SsrcStep(q, table, ssrc, c.attribute);
    ReplaySnoc(p, table, [a, b, c], d);
    SsrcStep(q, table, ssrc, d.attribute);
    assert [a] + [b] == [a, b] && [a, b] + [c] == [a, b, c];
    assert SsrcItems(ssrc, cname, msid, name) == [a, b, c] + [d];
  }

  lemma ReplayOptionalSsrc(p: Parse, table: seq<RtpMap>, ssrc: nat, msid: string)
    requires p.mtype != OTHER
    ensures Replay(p, table, OptionalSsrcItems(ssrc, msid)) == AfterSsrc(p, ssrc)
  {
    hide Replay, AfterSsrc, SsrcItems;
    if ssrc != 0 {
      ReplaySsrc(p, table, ssrc, "o/orbit", msid, "v0");
    } else {
      SsrcStep(p, table, 0, "");
      ReplayNone(p, table);
    }
  }

  /** The first that is not 0, if any. */
  function FirstSsrc(own: nat, ssrcs: seq<nat>, n: nat): nat
    requires n <= |ssrcs|
  {
    if n == 0 then own else First(FirstSsrc(own, ssrcs, n - 1), ssrcs[n - 1])
  }

  lemma {:induction false} ReplayExtended(p: Parse, table: seq<RtpMap>, ssrcs: seq<nat>, msid: string, n: nat)
    requires p.mtype != OTHER && n <= |ssrcs|
    ensures
      Replay(p, table, ExtendedItems(ssrcs, msid, n))
      == WithSide(p, SideOf(p).(ssrc := FirstSsrc(SideOf(p).ssrc, ssrcs, n)))
  {
    hide Replay, SsrcItems, Dec;
    if n == 0 {
      ReplayNone(p, table);
    } else {
      ReplayExtended(p, table, ssrcs, msid, n - 1);
      var items := SsrcItems(ssrcs[n - 1], "o/orbit", msid, "v" + Dec(n));
      ReplayConcat(p, table, ExtendedItems(ssrcs, msid, n - 1), items);
      var q := WithSide(p, SideOf(p).(ssrc := FirstSsrc(SideOf(p).ssrc, ssrcs, n - 1)));
      ReplaySsrc(q, table, ssrcs[n - 1], "o/orbit", msid, "v" + Dec(n));
    }
  }

  // ---------------------------------------------------------------- the sections

  /** The session fields after a section. */
  function ReadSession(own: Session, s: Session, media: MediaType): Session {
    own.(isFingerprint := own.isFingerprint || s.isFingerprint,
         fingerprint := if s.isFingerprint then s.fingerprint else own.fingerprint,
         bundleTags := Marked(own.bundleTags, s.bundleTags, media, |s.bundleTags|),
         isRtcpMux := own.isRtcpMux || s.isRtcpMux)
  }

  function ReadPayloads(own: Payloads, s: Sdp, media: MediaType, o: Options): Payloads {
    var all := s.payloads.list;
    Payloads(ReadList(own.list, all, media, s.extra.minBitrate, o, |all|),
             AddTypes(own.inOut, all, media, |all|), AddTypes(own.outIn, all, media, |all|))
  }

  function NackPairs(o: Options): seq<(nat, string)> {
    if o.audioNack then [(111, "nack")] else []
  }

  /** The state after the audio section of s. */
  function AudioRead(p: Parse, s: Sdp, o: Options): Parse {
    var own := p.sdp;
    Parse(
      Sdp(ReadSession(own.session, s.session, AUDIO),
          Side(true, p.mline + 1, s.audio.direction, AudioUsername(s), AudioPassword(s),
               First(own.audio.ssrc, AudioSsrc(s)),
               own.audio.codecs + Count(s.payloads.list, AUDIO, |s.payloads.list|)),
          own.video, ReadPayloads(own.payloads, s, AUDIO, o),
          own.candidates + ReadCandidates(s.candidates, AUDIO, s.session.isBundle, |s.candidates|),
          own.cryptos + ReadCryptos(s.cryptos, AUDIO, |s.cryptos|), own.extra),
      AUDIO, p.mline + 1, p.feedback + FeedbackLines(NackPairs(o)))
  }

  /** The state after the video section of s. */
  function VideoRead(p: Parse, s: Sdp, o: Options): Parse {
    var own := p.sdp;
    Parse(
      Sdp(ReadSession(own.session, s.session, VIDEO), own.audio,
          Side(true, p.mline + 1, s.video.direction, s.video.username, s.video.password,
               First(FirstSsrc(First(own.video.ssrc, s.video.ssrc), s.extra.extendedSsrc, |s.extra.extendedSsrc|),
                     s.extra.rtxSsrc),
               own.video.codecs + Count(s.payloads.list, VIDEO, |s.payloads.list|)),
          ReadPayloads(own.payloads, s, VIDEO, o),
          own.candidates + ReadCandidates(s.candidates, VIDEO, false, |s.candidates|),
          own.cryptos + ReadCryptos(s.cryptos, VIDEO, |s.cryptos|),
          own.extra.(bandwidth := s.extra.targetBandwidth)),
      VIDEO, p.mline + 1, p.feedback + FeedbackLines(AllPairs(s.payloads.list, VIDEO, |s.payloads.list|)))
  }

  lemma ReplayPlain(p: Parse, table: seq<RtpMap>, items: seq<Item>)
    requires forall k :: 0 <= k < |items| ==> items[k].Plain?
    ensures Replay(p, table, items) == p
    decreases |items|
  {
    if items != [] {
      ReplayPlain(p, table, items[..|items| - 1]);
    }
  }

  lemma ReplayAudioHead(p: Parse, table: seq<RtpMap>, s: Sdp)
    ensures Replay(p, table, AudioHead(s)) == OnAudio(p)
  {
    hide AudioTypes;
    var m := AudioHead(s)[0];
    assert AudioHead(s) == [m] + ([CONNECTION] + RtcpItems(s));
    ReplayConcat(p, table, [m], [CONNECTION] + RtcpItems(s));
    ReplayOne(p, table, m);
    ReplayPlain(OnAudio(p), table, [CONNECTION] + RtcpItems(s));
  }

  lemma ReplayVideoHead(p: Parse, table: seq<RtpMap>, s: Sdp)
    ensures
      Replay(p, table, VideoHead(s))
      == OnVideo(p).(sdp := OnVideo(p).sdp.(extra := p.sdp.extra.(bandwidth := s.extra.targetBandwidth)))
  {
    hide VideoTypes;
    var m, b := VideoHead(s)[0], VideoHead(s)[1];
    assert VideoHead(s) == [m, b] + ([CONNECTION] + RtcpItems(s));
    ReplayConcat(p, table, [m, b], [CONNECTION] + RtcpItems(s));
    assert [m, b] == [m] + [b];
    ReplaySnoc(p, table, [m], b);
    ReplayOne(p, table, m);
    ReplayPlain(Effect(OnVideo(p), table, b), table, [CONNECTION] + RtcpItems(s));
  }

  lemma ReplayNack(p: Parse, table: seq<RtpMap>, o: Options)
    ensures Replay(p, table, NackItems(o)) == WithFeedback(p, NackPairs(o))
  {
    ReplayOne(p, table, Feedback(111, "nack"));
    assert FeedbackLines([(111, "nack")]) == [Render(Feedback(111, "nack"))];
    SameLists(p);
  }

  /** Codecs of the table. */
  predicate GoodCodecs(table: seq<RtpMap>, payloads: seq<RtpMap>) {
    && UniqueCodecs(table)
    && forall k :: 0 <= k < |payloads| ==> GoodCodec(table, payloads[k])
  }

  lemma TransportIs(p: Parse, s: Sdp, username: string, password: string, d: Direction)
    ensures
      AfterTransport(p, s, username, password, d)
      == WithSide(p, SideOf(p).(username := username, password := password, direction := d)).(
           sdp := WithSide(p, SideOf(p).(username := username, password := password, direction := d)).sdp.(
             session := ReadSession(p.sdp.session, s.session, p.mtype),
             cryptos := p.sdp.cryptos + ReadCryptos(s.cryptos, p.mtype, |s.cryptos|)))
  {
    hide Marked, ReadCryptos;
  }

  lemma {:induction false} NoAudioPairs(payloads: seq<RtpMap>, n: nat)
    requires n <= |payloads|
    ensures AllPairs(payloads, AUDIO, n) == []
  {
    if n > 0 {
      NoAudioPairs(payloads, n - 1);
    }
  }

  /** Reading the audio section. */
  lemma ReplayAudio(p: Parse, table: seq<RtpMap>, s: Sdp, o: Options)
    requires GoodCodecs(table, s.payloads.list)
    ensures Replay(p, table, AudioItems(s, o)) == AudioRead(p, s, o)
  {
    hide Replay, CandidateItems, TransportItems, PayloadItems, SsrcItems, AudioHead, NackItems, UniqueCodecs, GoodCodec, AfterPayloads, AfterTransport, WithCandidates, AfterSsrc,
      WithFeedback, Marked, ReadCandidates, ReadCryptos, ReadList, AddTypes;
    var all := s.payloads.list;
    var a := AudioHead(s);
    var b := CandidateItems(s.candidates, AUDIO, s.session.isBundle, |s.candidates|);
    var c := TransportItems(s, AudioUsername(s), AudioPassword(s), s.audio.direction, AUDIO);
    var d := PayloadItems(all, AUDIO, s.extra.minBitrate, o, |all|);
    var e := [Plain("a=ptime:50"), Plain("a=maxptime:60")];
    var f := SsrcItems(AudioSsrc(s), "o/i14u9pJrxRKAsu", o.msid, "a0");
    ReplayAudioHead(p, table, s);
    var p1 := OnAudio(p);
    ReplayConcat(p, table, a, b);
    ReplayCandidates(p1, table, s.candidates, s.session.isBundle, |s.candidates|);
    var read := p1.sdp.candidates + ReadCandidates(s.candidates, AUDIO, s.session.isBundle, |s.candidates|);
    var p2 := WithCandidates(p1, read);
    CandidatesKeep(p1, read);
    ReplayConcat(p, table, a + b, c);
    ReplayTransport(p2, table, s, AudioUsername(s), AudioPassword(s), s.audio.direction);
    var p3 := AfterTransport(p2, s, AudioUsername(s), AudioPassword(s), s.audio.direction);
    TransportIs(p2, s, AudioUsername(s), AudioPassword(s), s.audio.direction);
    ReplayConcat(p, table, a + b + c, d);
    ReplayPayloads(p3, table, all, s.extra.minBitrate, o, |all|);
    var p4 := AfterPayloads(p3, all, s.extra.minBitrate, o, |all|);
    ReplayConcat(p, table, a + b + c + d, e);
    ReplayPlain(p4, table, e);
    PayloadsMedia(p3, all, s.extra.minBitrate, o, |all|);
    ReplayConcat(p, table, a + b + c + d + e, f);
    ReplaySsrc(p4, table, AudioSsrc(s), "o/i14u9pJrxRKAsu", o.msid, "a0");
    var p5 := AfterSsrc(p4, AudioSsrc(s));
    ReplayConcat(p, table, a + b + c + d + e + f, NackItems(o));
    ReplayNack(p5, table, o);
    AudioSteps(p, s, o);
  }

  lemma CandidatesKeep(p: Parse, candidates: seq<Candidate>)
    ensures WithCandidates(p, candidates).mtype == p.mtype
    ensures WithCandidates(p, candidates).sdp.payloads == p.sdp.payloads
  {}

  lemma AudioSteps(p: Parse, s: Sdp, o: Options)
    ensures
      var p1 := OnAudio(p);
      var p2 := WithCandidates(p1, p1.sdp.candidates + ReadCandidates(s.candidates, AUDIO, s.session.isBundle, |s.candidates|));
      var p3 := AfterTransport(p2, s, AudioUsername(s), AudioPassword(s), s.audio.direction);
      var p4 := AfterPayloads(p3, s.payloads.list, s.extra.minBitrate, o, |s.payloads.list|);
      WithFeedback(AfterSsrc(p4, AudioSsrc(s)), NackPairs(o)) == AudioRead(p, s, o)
  {
    hide AfterTransport, Marked, ReadCandidates, ReadCryptos, ReadList, AddTypes, AudioUsername, AudioPassword,
      AudioSsrc, First, ReadSession, Count, FeedbackLines;
    var p1 := OnAudio(p);
    var p2 := WithCandidates(p1, p1.sdp.candidates + ReadCandidates(s.candidates, AUDIO, s.session.isBundle, |s.candidates|));
    TransportIs(p2, s, AudioUsername(s), AudioPassword(s), s.audio.direction);
    NoAudioPairs(s.payloads.list, |s.payloads.list|);
    assert FeedbackLines([]) == [] by { LinesLength([]); }
  }

  lemma LinesLength(pairs: seq<(nat, string)>)
    ensures |FeedbackLines(pairs)| == |pairs|
  {}

  /** Reading the video section. */
  lemma ReplayVideo(p: Parse, table: seq<RtpMap>, s: Sdp, o: Options)
    requires GoodCodecs(table, s.payloads.list)
    ensures Replay(p, table, VideoItems(s, o)) == VideoRead(p, s, o)
  {
    hide Replay, CandidateItems, TransportItems, PayloadItems, SsrcItems, ExtendedItems, OptionalSsrcItems, VideoHead,
      UniqueCodecs, GoodCodec, AfterPayloads, AfterTransport, WithCandidates,
      AfterSsrc, WithFeedback, Marked, ReadCandidates, ReadCryptos, ReadList, AddTypes, FirstSsrc;
    var all := s.payloads.list;
    var a := VideoHead(s);
    var b := CandidateItems(s.candidates, VIDEO, false, |s.candidates|);
    var c := TransportItems(s, s.video.username, s.video.password, s.video.direction, VIDEO);
    var d := PayloadItems(all, VIDEO, s.extra.minBitrate, o, |all|);
    var e := OptionalSsrcItems(s.video.ssrc, o.msid);
    var f := ExtendedItems(s.extra.extendedSsrc, o.msid, |s.extra.extendedSsrc|);
    var g := OptionalSsrcItems(s.extra.rtxSsrc, o.msid);
    ReplayVideoHead(p, table, s);
    var p1 := VideoStart(p, s);
    ReplayConcat(p, table, a, b);
    ReplayCandidates(p1, table, s.candidates, false, |s.candidates|);
    var read := p1.sdp.candidates + ReadCandidates(s.candidates, VIDEO, false, |s.candidates|);
    var p2 := WithCandidates(p1, read);
    CandidatesKeep(p1, read);
    ReplayConcat(p, table, a + b, c);
    ReplayTransport(p2, table, s, s.video.username, s.video.password, s.video.direction);
    var p3 := AfterTransport(p2, s, s.video.username, s.video.password, s.video.direction);
    TransportIs(p2, s, s.video.username, s.video.password, s.video.direction);
    ReplayConcat(p, table, a + b + c, d);
    ReplayPayloads(p3, table, all, s.extra.minBitrate, o, |all|);
    var p4 := AfterPayloads(p3, all, s.extra.minBitrate, o, |all|);
    PayloadsMedia(p3, all, s.extra.minBitrate, o, |all|);
    ReplayConcat(p, table, a + b + c + d, e);
    ReplayOptionalSsrc(p4, table, s.video.ssrc, o.msid);
    var p5 := AfterSsrc(p4, s.video.ssrc);
    SsrcStep(p4, table, s.video.ssrc, "");
    ReplayConcat(p, table, a + b + c + d + e, f);
    ReplayExtended(p5, table, s.extra.extendedSsrc, o.msid, |s.extra.extendedSsrc|);
    var p6 := WithSide(p5, SideOf(p5).(ssrc := FirstSsrc(SideOf(p5).ssrc, s.extra.extendedSsrc, |s.extra.extendedSsrc|)));
    ReplayConcat(p, table, a + b + c + d + e + f, g);
    ReplayOptionalSsrc(p6, table, s.extra.rtxSsrc, o.msid);
    VideoSteps(p, s, o);
  }

  function VideoStart(p: Parse, s: Sdp): Parse {
    OnVideo(p).(sdp := OnVideo(p).sdp.(extra := p.sdp.extra.(bandwidth := s.extra.targetBandwidth)))
  }

  lemma VideoSteps(p: Parse, s: Sdp, o: Options)
    ensures
      var p1 := VideoStart(p, s);
      var p2 := WithCandidates(p1, p1.sdp.candidates + ReadCandidates(s.candidates, VIDEO, false, |s.candidates|));
      var p3 := AfterTransport(p2, s, s.video.username, s.video.password, s.video.direction);
      var p4 := AfterPayloads(p3, s.payloads.list, s.extra.minBitrate, o, |s.payloads.list|);
      var p5 := AfterSsrc(p4, s.video.ssrc);
      var p6 := WithSide(p5, SideOf(p5).(ssrc := FirstSsrc(SideOf(p5).ssrc, s.extra.extendedSsrc, |s.extra.extendedSsrc|)));
      AfterSsrc(p6, s.extra.rtxSsrc) == VideoRead(p, s, o)
  {
    hide AfterTransport, Marked, ReadCandidates, ReadCryptos, ReadList, AddTypes, First, FirstSsrc, ReadSession,
      Count, FeedbackLines, AllPairs;
    var p1 := VideoStart(p, s);
    var p2 := WithCandidates(p1, p1.sdp.candidates + ReadCandidates(s.candidates, VIDEO, false, |s.candidates|));
    TransportIs(p2, s, s.video.username, s.video.password, s.video.direction);
  }

  // ---------------------------------------------------------------- the whole text

  function HeadRead(p: Parse, s: Session): Parse {
    if s.isBundle then
      WithSession(p, p.sdp.session.(
        isBundle := true, bundleTags := p.sdp.session.bundleTags + NewTags(GroupPieces(TagIds(s.bundleTags)))))
    else p
  }

  lemma ReplayHead(p: Parse, table: seq<RtpMap>, s: Sdp, o: Options)
    ensures Replay(p, table, HeadItems(s, o)) == HeadRead(p, s.session)
  {
    hide GroupPieces, TagIds;
    var a := [Plain("v=0"), Plain("o=- 0 0 IN IP4 127.0.0.1"), Plain("s=Orbit"), Plain("t=0 0")];
    ReplayPlain(p, table, a);
    if s.session.isBundle {
      var b, c := Group(TagIds(s.session.bundleTags)), Plain("a=msid-semantic: WMS " + o.msid);
      ReplaySnoc(p, table, a, b);
      ReplaySnoc(p, table, a + [b], c);
      assert HeadItems(s, o) == a + [b] + [c];
    } else {
      assert HeadItems(s, o) == a;
    }
  }

  function AllRead(p: Parse, s: Sdp, o: Options): Parse {
    var p := HeadRead(p, s.session);
    var p := if s.audio.has then AudioRead(p, s, o) else p;
    if s.video.has then VideoRead(p, s, o) else p
  }

  lemma ReplayAll(p: Parse, table: seq<RtpMap>, s: Sdp, o: Options)
    requires GoodCodecs(table, s.payloads.list)
    ensures Replay(p, table, Items(s, o)) == AllRead(p, s, o)
  {
    hide Replay, HeadItems, AudioItems, VideoItems, HeadRead, UniqueCodecs, GoodCodec, AudioRead, VideoRead;
    var a := HeadItems(s, o);
    var b := if s.audio.has then AudioItems(s, o) else [];
    var c := if s.video.has then VideoItems(s, o) else [];
    ReplayHead(p, table, s, o);
    var p1 := HeadRead(p, s.session);
    ReplayConcat(p, table, a, b);
    if s.audio.has {
      ReplayAudio(p1, table, s, o);
    } else {
      ReplayNone(p1, table);
    }
    var p2 := if s.audio.has then AudioRead(p1, s, o) else p1;
    ReplayConcat(p, table, a + b, c);
    if s.video.has {
      ReplayVideo(p2, table, s, o);
    } else {
      ReplayNone(p2, table);
    }
  }

  // ---------------------------------------------------------------- after the lines

  /** Audio codecs read first leave the types of the video ones unused. */
  lemma AudioLeavesVideo(payloads: seq<RtpMap>, minBitrate: nat, o: Options)
    requires DistinctTypes(payloads)
    ensures AllUnused(ReadCodecs(payloads, AUDIO, minBitrate, o, |payloads|), payloads, VIDEO)
  {
    hide ReadCodecs, Unused, DistinctTypes;
    forall k | 0 <= k < |payloads| && payloads[k].mediaType == VIDEO
      ensures Unused(ReadCodecs(payloads, AUDIO, minBitrate, o, |payloads|), payloads[k].payloadType)
    {
      ReadUnused(payloads, AUDIO, minBitrate, o, |payloads|, k);
    }
  }

  lemma NothingUsed(payloads: seq<RtpMap>, media: MediaType)
    ensures AllUnused([], payloads, media)
  {}

  /** The feedback a codec is left with. */
  function FeedbackOf(r: RtpMap, o: Options): seq<string> {
    if r.mediaType == VIDEO then r.feedbackTypes
    else if o.audioNack && r.payloadType == 111 then ["nack"]
    else []
  }

  /** A codec as it comes back. */
  function Recovered(r: RtpMap, minBitrate: nat, o: Options): RtpMap {
    r.(feedbackTypes := FeedbackOf(r, o), formatParameters := ReadParameters(r, minBitrate, o))
  }

  /** The codecs of a medium, in order. */
  function RecoveredCodecs(payloads: seq<RtpMap>, media: MediaType, minBitrate: nat, o: Options, n: nat): seq<RtpMap>
    requires n <= |payloads|
  {
    if n == 0 then [] else
      RecoveredCodecs(payloads, media, minBitrate, o, n - 1)
      + (if payloads[n - 1].mediaType == media then [Recovered(payloads[n - 1], minBitrate, o)] else [])
  }

  lemma GiveConcat(a: seq<RtpMap>, b: seq<RtpMap>, pairs: seq<(nat, string)>)
    ensures GiveFeedback(a + b, pairs) == GiveFeedback(a, pairs) + GiveFeedback(b, pairs)
  {}

  lemma GiveToOne(r: RtpMap, pairs: seq<(nat, string)>, minBitrate: nat, o: Options)
    requires Received(pairs, r.payloadType) == FeedbackOf(r, o)
    ensures
      GiveFeedback([Bare(r).(formatParameters := ReadParameters(r, minBitrate, o))], pairs)
      == [Recovered(r, minBitrate, o)]
  {
    hide Received, ReadParameters, FeedbackOf;
    assert [] + FeedbackOf(r, o) == FeedbackOf(r, o);
  }

  lemma {:induction false} GiveToAll(payloads: seq<RtpMap>, media: MediaType, minBitrate: nat, o: Options,
                                     pairs: seq<(nat, string)>, n: nat)
    requires n <= |payloads|
    requires forall k :: 0 <= k < |payloads| && payloads[k].mediaType == media ==>
      Received(pairs, payloads[k].payloadType) == FeedbackOf(payloads[k], o)
    ensures
      GiveFeedback(ReadCodecs(payloads, media, minBitrate, o, n), pairs)
      == RecoveredCodecs(payloads, media, minBitrate, o, n)
  {
    hide Received, ReadParameters, FeedbackOf, GiveFeedback, Recovered, Bare;
    if n == 0 {
      assert GiveFeedback([], pairs) == [] by { GiveToNone(pairs); }
    } else {
      GiveToAll(payloads, media, minBitrate, o, pairs, n - 1);
      var r := payloads[n - 1];
      if r.mediaType == media {
        GiveToOne(r, pairs, minBitrate, o);
        GiveConcat(ReadCodecs(payloads, media, minBitrate, o, n - 1),
                   [Bare(r).(formatParameters := ReadParameters(r, minBitrate, o))], pairs);
      } else {
        assert ReadCodecs(payloads, media, minBitrate, o, n) == ReadCodecs(payloads, media, minBitrate, o, n - 1);
        assert RecoveredCodecs(payloads, media, minBitrate, o, n) == RecoveredCodecs(payloads, media, minBitrate, o, n - 1);
      }
    }
  }

  lemma GiveToNone(pairs: seq<(nat, string)>)
    ensures GiveFeedback([], pairs) == []
  {}

  /** The pairs saved while reading s. */
  function SavedPairs(s: Sdp, o: Options): seq<(nat, string)> {
    (if s.audio.has then NackPairs(o) else [])
    + (if s.video.has then AllPairs(s.payloads.list, VIDEO, |s.payloads.list|) else [])
  }

  /** Only opus has the payload type that the audio section asks NACK for. */
  predicate NackIsAudio(payloads: seq<RtpMap>) {
    forall k :: 0 <= k < |payloads| && payloads[k].mediaType == VIDEO ==> payloads[k].payloadType != 111
  }

  lemma SavedForCodec(s: Sdp, o: Options, k: nat)
    requires k < |s.payloads.list| && DistinctTypes(s.payloads.list) && NackIsAudio(s.payloads.list)
    requires
      || (s.payloads.list[k].mediaType == AUDIO && s.audio.has)
      || (s.payloads.list[k].mediaType == VIDEO && s.video.has)
    ensures Received(SavedPairs(s, o), s.payloads.list[k].payloadType) == FeedbackOf(s.payloads.list[k], o)
  {
    hide Received, AllPairs, DistinctTypes;
    var all := s.payloads.list;
    var pt := all[k].payloadType;
    var nack := if s.audio.has then NackPairs(o) else [];
    var video := if s.video.has then AllPairs(all, VIDEO, |all|) else [];
    ReceivedConcat(nack, video, pt);
    ReceivedOfAll(all, |all|, k);
    ReceivedEmpty(pt);
    ReceivedSnoc([], (111, "nack"), pt);
    assert [] + [(111 as nat, "nack")] == [(111, "nack")];
  }
}
