/** A description whose tokens are clean prints clean lines only. */
module SdpClean {
  import opened SdpText
  import opened Candidates
  import opened SdpState
  import opened SdpPrint
  import opened SdpLines
  import opened SdpEffects

  // ---------------------------------------------------------------- clean descriptions

  predicate InTable(table: seq<RtpMap>, r: RtpMap) {
    exists k :: 0 <= k < |table| && SameCodec(table[k], r) && table[k].payloadType == r.payloadType
                && table[k].channels == r.channels && table[k].mediaType == r.mediaType
  }

  predicate CleanCodec(r: RtpMap) {
    && r.payloadType < INT && r.clockRate < UINT && Word(r.encodingName, WORD_ENDS) && r.mediaType != OTHER
    && (forall k :: 0 <= k < |r.formatParameters| ==>
          CleanParameter(r.formatParameters[k].0, r.formatParameters[k].1))
    && (forall k :: 0 <= k < |r.feedbackTypes| ==> Word(r.feedbackTypes[k], LINE_ENDS))
  }

  predicate CleanSession(s: Session) {
    && (forall k :: 0 <= k < |s.bundleTags| ==> Word(s.bundleTags[k].id, TAG_ENDS))
    && (s.isFingerprint ==> Word(s.fingerprint, FINGERPRINT_ENDS))
    && Free(s.setup, LINE_ENDS)
  }

  predicate CleanSide(s: Side) {
    Word(s.username, CREDENTIAL_ENDS) && Word(s.password, CREDENTIAL_ENDS) && s.ssrc < UINT
  }

  predicate CleanLists(s: Sdp) {
    && (forall k :: 0 <= k < |s.payloads.list| ==> CleanCodec(s.payloads.list[k]))
    && (forall k :: 0 <= k < |s.candidates| ==> CleanCandidate(s.candidates[k]))
    && (forall k :: 0 <= k < |s.cryptos| ==> Clean(CryptoLine(s.cryptos[k])))
  }

  predicate CleanExtra(x: VideoOnly) {
    && x.rtxSsrc < UINT && x.targetBandwidth < UINT
    && (forall k :: 0 <= k < |x.extendedSsrc| ==> x.extendedSsrc[k] < UINT)
  }

  /** The audio section prints the video credentials when there is no audio user. */
  predicate CleanSdp(s: Sdp, o: Options) {
    && CleanSession(s.session) && CleanLists(s) && CleanExtra(s.extra) && Free(o.msid, LINE_ENDS)
    && (s.video.has || (s.audio.has && s.audio.username == "") ==> CleanSide(s.video))
    && (s.audio.has && s.audio.username != "" ==> CleanSide(s.audio))
    && s.audio.ssrc < UINT
  }

  // ---------------------------------------------------------------- lines without a tag

  lemma UntaggedByChars(head: string, rest: string, j: nat, k: nat)
    requires QuietHead(head) && Free(rest, LINE_ENDS) && |head| > 4 && 2 < j < |head| && 2 < k < |head|
    requires
      || head[2] !in {'v', 'a', 'g', 'm', 'c', 'i', 's', 'r', 'f', 'A'}
      || (head[2] == 'm' && j == 3 && head[j] != 'i')
      || (head[2] == 's' && j == 4 && k == 6 && head[3] == 'e' && head[j] == 't' && head[k] != '-')
      || (head[2] == 'r' && j == 4 && k == 7 && head[3] == 't' && head[j] == 'c' && head[k] !in {'m', 'f'})
    ensures Clean(Plain(head + rest))
  {
    hide Occurs, At, Quiet, QuietHead;
    QuietLine(head, rest);
    TagsDiffer(head + rest);
    HeadOf("", head, rest, 2, 3, j, k);
  }

  lemma PlainLines(msid: string, setup: string)
    requires Free(msid, LINE_ENDS) && Free(setup, LINE_ENDS)
    ensures Clean(Plain("o=- 0 0 IN IP4 127.0.0.1")) && Clean(Plain("s=Orbit")) && Clean(Plain("t=0 0"))
    ensures Clean(Plain("a=msid-semantic: WMS " + msid)) && Clean(Plain("a=setup:" + setup))
  {
    hide Clean;
    UntaggedByChars("o=- 0 0 IN IP4 127.0.0.1", "", 3, 3);
    UntaggedByChars("s=Orbit", "", 3, 3);
    UntaggedByChars("t=0 0", "", 3, 3);
    UntaggedByChars("a=msid-semantic: WMS ", msid, 3, 3);
    UntaggedByChars("a=setup:", setup, 4, 6);
    assert "o=- 0 0 IN IP4 127.0.0.1" + "" == "o=- 0 0 IN IP4 127.0.0.1";
    assert "s=Orbit" + "" == "s=Orbit" && "t=0 0" + "" == "t=0 0";
  }

  lemma MorePlainLines()
    ensures Clean(Plain("v=0")) && Clean(CONNECTION) && Clean(Plain("a=rtcp:1 IN IP4 0.0.0.0"))
    ensures Clean(Plain("a=ptime:50")) && Clean(Plain("a=maxptime:60"))
  {
    hide Clean;
    ShortLine();
    AddressLines();
    UntaggedByChars("a=ptime:50", "", 3, 3);
    UntaggedByChars("a=maxptime:60", "", 3, 3);
    assert "a=ptime:50" + "" == "a=ptime:50" && "a=maxptime:60" + "" == "a=maxptime:60";
  }

  lemma AddressLines()
    ensures Clean(CONNECTION) && Clean(Plain("a=rtcp:1 IN IP4 0.0.0.0"))
  {
    hide Clean;
    UntaggedByChars("c=IN IP4 0.0.0.0", "", 3, 3);
    UntaggedByChars("a=rtcp:1 IN IP4 0.0.0.0", "", 4, 7);
    assert "c=IN IP4 0.0.0.0" + "" == "c=IN IP4 0.0.0.0";
    assert "a=rtcp:1 IN IP4 0.0.0.0" + "" == "a=rtcp:1 IN IP4 0.0.0.0";
  }

  lemma ShortLine()
    ensures Clean(Plain("v=0"))
  {
    hide Occurs, At, Quiet;
    assert Quiet("v=0") by { QuietLine("v=", "0"); assert "v=" + "0" == "v=0"; }
    TagsDiffer("v=0");
    HeadOf("", "v=0", "", 2, 2, 2, 2);
    assert "v=0" + "" == "v=0";
  }

  // ---------------------------------------------------------------- lists of lines

  /** Clean lines among which is no group line. */
  predicate Part(items: seq<Item>) {
    forall k :: 0 <= k < |items| ==> Clean(items[k]) && !items[k].Group?
  }

  lemma PartConcat(a: seq<Item>, b: seq<Item>)
    requires Part(a) && Part(b)
    ensures Part(a + b)
  {
    hide Clean;
  }

  lemma CandidateClean(s: Sdp, k: nat)
    requires CleanLists(s) && k < |s.candidates|
    ensures Clean(CandidateLine(s.candidates[k]))
  {
    hide CleanCandidate, CleanCodec;
  }

  lemma MidClean(s: Session, k: nat)
    requires CleanSession(s) && k < |s.bundleTags|
    ensures Clean(Mid(s.bundleTags[k].id))
  {}

  lemma FeedbackClean(r: RtpMap, k: nat)
    requires CleanCodec(r) && k < |r.feedbackTypes|
    ensures Clean(Feedback(r.payloadType, r.feedbackTypes[k]))
  {}

  lemma FmtpClean(r: RtpMap, k: nat)
    requires CleanCodec(r) && k < |r.formatParameters|
    ensures Clean(Fmtp(r.payloadType, r.formatParameters[k].0, r.formatParameters[k].1))
  {
    hide CleanParameter;
  }

  lemma {:induction false} CandidateItemsClean(s: Sdp, media: MediaType, all: bool, n: nat)
    requires CleanLists(s) && n <= |s.candidates|
    ensures Part(CandidateItems(s.candidates, media, all, n))
  {
    hide Clean, CleanLists;
    if n > 0 {
      CandidateItemsClean(s, media, all, n - 1);
      CandidateClean(s, n - 1);
    }
  }

  lemma {:induction false} MidItemsClean(s: Session, media: MediaType, n: nat)
    requires CleanSession(s) && n <= |s.bundleTags|
    ensures Part(MidItems(s.bundleTags, media, n))
  {
    hide Clean, CleanSession;
    if n > 0 {
      MidItemsClean(s, media, n - 1);
      MidClean(s, n - 1);
    }
  }

  lemma {:induction false} CryptoItemsClean(s: Sdp, media: MediaType, n: nat)
    requires CleanLists(s) && n <= |s.cryptos|
    ensures Part(CryptoItems(s.cryptos, media, n))
  {
    hide Clean;
    if n > 0 {
      CryptoItemsClean(s, media, n - 1);
    }
  }

  lemma {:induction false} FmtpItemsClean(r: RtpMap, n: nat)
    requires CleanCodec(r) && n <= |r.formatParameters|
    ensures Part(FmtpItems(r.payloadType, r.formatParameters, n))
  {
    hide Clean, CleanCodec;
    if n > 0 {
      FmtpItemsClean(r, n - 1);
      FmtpClean(r, n - 1);
    }
  }

  lemma {:induction false} FeedbackItemsClean(r: RtpMap, n: nat)
    requires CleanCodec(r) && n <= |r.feedbackTypes|
    ensures Part(FeedbackItems(r.payloadType, r.feedbackTypes, n))
  {
    hide Clean, CleanCodec;
    if n > 0 {
      FeedbackItemsClean(r, n - 1);
      FeedbackClean(r, n - 1);
    }
  }

  lemma MinBitrateClean(pt: nat, kbps: nat)
    requires pt < UINT
    ensures Clean(Fmtp(pt, MIN_BITRATE, Dec(kbps)))
  {
    hide Dec;
    DecIsFree(kbps, LINE_ENDS);
  }

  lemma CodecItemsClean(r: RtpMap, minBitrate: nat, o: Options)
    requires CleanCodec(r)
    ensures Part(CodecItems(r, minBitrate, o))
  {
    hide CleanParameter, Dec, FmtpItems, FeedbackItems;
    var pt := r.payloadType;
    FmtpItemsClean(r, |r.formatParameters|);
    FeedbackItemsClean(r, |r.feedbackTypes|);
    MinBitrateClean(pt, minBitrate);
    assert Clean(Rtpmap(pt, r.encodingName, r.clockRate, r.channels));
    assert Clean(Rtpmap(pt, r.encodingName, r.clockRate, 1));
    hide Clean;
  }

  lemma {:induction false} PayloadItemsClean(s: Sdp, media: MediaType, o: Options, n: nat)
    requires CleanLists(s) && n <= |s.payloads.list|
    ensures Part(PayloadItems(s.payloads.list, media, s.extra.minBitrate, o, n))
  {
    hide Clean, CleanCodec, CodecItems, CleanCandidate;
    if n > 0 {
      PayloadItemsClean(s, media, o, n - 1);
      CodecItemsClean(s.payloads.list[n - 1], s.extra.minBitrate, o);
    }
  }

  lemma SsrcItemsClean(ssrc: nat, cname: string, msid: string, name: string)
    requires ssrc < UINT && Free(cname, LINE_ENDS) && Free(msid, LINE_ENDS) && Free(name, LINE_ENDS)
    ensures Part(SsrcItems(ssrc, cname, msid, name))
  {}

  lemma {:induction false} ExtendedItemsClean(x: VideoOnly, msid: string, n: nat)
    requires CleanExtra(x) && Free(msid, LINE_ENDS) && n <= |x.extendedSsrc|
    ensures Part(ExtendedItems(x.extendedSsrc, msid, n))
  {
    hide Clean, Dec, SsrcItems;
    if n > 0 {
      ExtendedItemsClean(x, msid, n - 1);
      DecIsFree(n, LINE_ENDS);
      FreeConcat("v", Dec(n), LINE_ENDS);
      SsrcItemsClean(x.extendedSsrc[n - 1], "o/orbit", msid, "v" + Dec(n));
    }
  }

  lemma {:induction false} AudioTypesFree(payloads: seq<RtpMap>, n: nat)
    requires n <= |payloads|
    ensures Free(AudioTypes(payloads, n), LINE_ENDS)
  {
    hide Dec;
    if n > 0 {
      AudioTypesFree(payloads, n - 1);
      DecIsFree(payloads[n - 1].payloadType, LINE_ENDS);
    }
  }

  lemma {:induction false} VideoTypesFree(payloads: seq<RtpMap>, videoCodecs: int, n: nat)
    requires n <= |payloads|
    ensures Free(VideoTypes(payloads, videoCodecs, n), LINE_ENDS)
  {
    hide Dec;
    if n > 0 {
      VideoTypesFree(payloads, videoCodecs, n - 1);
      DecIsFree(payloads[n - 1].payloadType, LINE_ENDS);
    }
  }

  lemma MLineClean(media: MediaType, profile: Profile, types: string)
    requires media != OTHER && Free(types, LINE_ENDS)
    ensures Clean(MLine(media, " 1 UDP/TLS/RTP/" + ProfileText(profile) + types))
  {
    FreeConcat(" 1 UDP/TLS/RTP/", ProfileText(profile), LINE_ENDS);
    FreeConcat(" 1 UDP/TLS/RTP/" + ProfileText(profile), types, LINE_ENDS);
  }

  // ---------------------------------------------------------------- the sections

  lemma WordsClean(s: Session, username: string, password: string, d: Direction)
    requires CleanSession(s) && Word(username, CREDENTIAL_ENDS) && Word(password, CREDENTIAL_ENDS)
    ensures Clean(Ufrag(username)) && Clean(Pwd(password)) && Clean(DirectionLine(d)) && Clean(RtcpMux)
    ensures s.isFingerprint ==> Clean(Fingerprint(s.fingerprint))
    ensures Free(s.setup, LINE_ENDS)
  {}

  lemma TransportLinesClean(s: Session, username: string, password: string, d: Direction)
    requires CleanSession(s) && Word(username, CREDENTIAL_ENDS) && Word(password, CREDENTIAL_ENDS)
    ensures Part([Ufrag(username), Pwd(password)]) && Part([DirectionLine(d)])
    ensures Part(if s.isFingerprint then [Fingerprint(s.fingerprint)] else [])
    ensures Part(if s.setup != "" then [Plain("a=setup:" + s.setup)] else [])
    ensures Part(if s.isRtcpMux then [RtcpMux] else [])
  {
    hide Clean, CleanSession;
    WordsClean(s, username, password, d);
    PlainLines("", s.setup);
  }

  lemma TransportItemsClean(s: Sdp, username: string, password: string, d: Direction, media: MediaType)
    requires CleanSession(s.session) && CleanLists(s)
    requires Word(username, CREDENTIAL_ENDS) && Word(password, CREDENTIAL_ENDS)
    ensures Part(TransportItems(s, username, password, d, media))
  {
    hide Part, MidItems, CryptoItems, CleanSession, CleanLists;
    TransportLinesClean(s.session, username, password, d);
    MidItemsClean(s.session, media, |s.session.bundleTags|);
    CryptoItemsClean(s, media, |s.cryptos|);
    var a := [Ufrag(username), Pwd(password)];
    var b := if s.session.isFingerprint then [Fingerprint(s.session.fingerprint)] else [];
    var c := if s.session.setup != "" then [Plain("a=setup:" + s.session.setup)] else [];
    var e := [DirectionLine(d)];
    var f := MidItems(s.session.bundleTags, media, |s.session.bundleTags|);
    var g := if s.session.isRtcpMux then [RtcpMux] else [];
    PartConcat(a, b);
    PartConcat(a + b, c);
    PartConcat(a + b + c, e);
    PartConcat(a + b + c + e, f);
    PartConcat(a + b + c + e + f, g);
    PartConcat(a + b + c + e + f + g, CryptoItems(s.cryptos, media, |s.cryptos|));
  }

  lemma GroupClean(s: Session)
    requires CleanSession(s)
    ensures Clean(Group(TagIds(s.bundleTags)))
  {}

  lemma HeadItemsClean(s: Sdp, o: Options)
    requires CleanSession(s.session) && Free(o.msid, LINE_ENDS)
    ensures AllClean(HeadItems(s, o)) && OneGroup(HeadItems(s, o)) && |HeadItems(s, o)| >= 4
    ensures |HeadItems(s, o)| == 4 ==> !s.session.isBundle
  {
    hide Clean, CleanSession, TagIds;
    PlainLines(o.msid, "");
    MorePlainLines();
    GroupClean(s.session);
  }

  lemma AudioItemsClean(s: Sdp, o: Options)
    requires CleanSdp(s, o) && s.audio.has
    ensures Part(AudioItems(s, o))
  {
    hide Part, CleanLists, CleanSession, AudioTypes, CandidateItems, TransportItems, PayloadItems, SsrcItems;
    var n := |s.payloads.list|;
    AudioLinesClean(s, o);
    CandidateItemsClean(s, AUDIO, s.session.isBundle, |s.candidates|);
    TransportItemsClean(s, AudioUsername(s), AudioPassword(s), s.audio.direction, AUDIO);
    PayloadItemsClean(s, AUDIO, o, n);
    SsrcItemsClean(AudioSsrc(s), "o/i14u9pJrxRKAsu", o.msid, "a0");
    var a := AudioHead(s);
    var b := CandidateItems(s.candidates, AUDIO, s.session.isBundle, |s.candidates|);
    var c := TransportItems(s, AudioUsername(s), AudioPassword(s), s.audio.direction, AUDIO);
    var d := PayloadItems(s.payloads.list, AUDIO, s.extra.minBitrate, o, n);
    var e := [Plain("a=ptime:50"), Plain("a=maxptime:60")];
    var f := SsrcItems(AudioSsrc(s), "o/i14u9pJrxRKAsu", o.msid, "a0");
    PartConcat(a, b);
    PartConcat(a + b, c);
    PartConcat(a + b + c, d);
    PartConcat(a + b + c + d, e);
    PartConcat(a + b + c + d + e, f);
    PartConcat(a + b + c + d + e + f, NackItems(o));
  }

  lemma AudioLinesClean(s: Sdp, o: Options)
    ensures Part(AudioHead(s)) && Part([Plain("a=ptime:50"), Plain("a=maxptime:60")]) && Part(NackItems(o))
  {
    hide Clean, AudioTypes;
    AudioTypesFree(s.payloads.list, |s.payloads.list|);
    MLineClean(AUDIO, s.session.profile, AudioTypes(s.payloads.list, |s.payloads.list|));
    MorePlainLines();
    NackClean();
  }

  lemma NackClean()
    ensures Clean(Feedback(111, "nack"))
  {}

  lemma VideoItemsClean(s: Sdp, o: Options)
    requires CleanSdp(s, o) && s.video.has
    ensures Part(VideoItems(s, o))
  {
    hide Part, CleanLists, CleanSession, VideoTypes, CandidateItems, TransportItems, PayloadItems, SsrcItems, ExtendedItems;
    var n := |s.payloads.list|;
    VideoLinesClean(s);
    CandidateItemsClean(s, VIDEO, false, |s.candidates|);
    TransportItemsClean(s, s.video.username, s.video.password, s.video.direction, VIDEO);
    PayloadItemsClean(s, VIDEO, o, n);
    OptionalSsrcClean(s.video.ssrc, o.msid);
    ExtendedItemsClean(s.extra, o.msid, |s.extra.extendedSsrc|);
    OptionalSsrcClean(s.extra.rtxSsrc, o.msid);
    var a := VideoHead(s);
    var b := CandidateItems(s.candidates, VIDEO, false, |s.candidates|);
    var c := TransportItems(s, s.video.username, s.video.password, s.video.direction, VIDEO);
    var d := PayloadItems(s.payloads.list, VIDEO, s.extra.minBitrate, o, n);
    var e := OptionalSsrcItems(s.video.ssrc, o.msid);
    var f := ExtendedItems(s.extra.extendedSsrc, o.msid, |s.extra.extendedSsrc|);
    PartConcat(a, b);
    PartConcat(a + b, c);
    PartConcat(a + b + c, d);
    PartConcat(a + b + c + d, e);
    PartConcat(a + b + c + d + e, f);
    PartConcat(a + b + c + d + e + f, OptionalSsrcItems(s.extra.rtxSsrc, o.msid));
  }

  lemma OptionalSsrcClean(ssrc: nat, msid: string)
    requires ssrc < UINT && Free(msid, LINE_ENDS)
    ensures Part(OptionalSsrcItems(ssrc, msid))
  {
    hide Clean, SsrcItems;
    SsrcItemsClean(ssrc, "o/orbit", msid, "v0");
  }

  lemma VideoLinesClean(s: Sdp)
    requires CleanExtra(s.extra)
    ensures Part(VideoHead(s))
  {
    hide Clean, VideoTypes;
    VideoTypesFree(s.payloads.list, s.video.codecs, |s.payloads.list|);
    MLineClean(VIDEO, s.session.profile, VideoTypes(s.payloads.list, s.video.codecs, |s.payloads.list|));
    MorePlainLines();
    BandwidthClean(s.extra);
  }

  lemma BandwidthClean(x: VideoOnly)
    requires CleanExtra(x)
    ensures Clean(Bandwidth(x.targetBandwidth))
  {}

  /** Everything getSdp prints of a clean description is clean, with at most one group line. */
  lemma ItemsClean(s: Sdp, o: Options)
    requires CleanSdp(s, o)
    ensures AllClean(Items(s, o)) && OneGroup(Items(s, o))
  {
    hide Clean, CleanLists, HeadItems, AudioItems, VideoItems;
    HeadItemsClean(s, o);
    var more := (if s.audio.has then AudioItems(s, o) else []) + (if s.video.has then VideoItems(s, o) else []);
    assert Part(more) by {
      if s.audio.has {
        AudioItemsClean(s, o);
      }
      if s.video.has {
        VideoItemsClean(s, o);
      }
    }
    assert Items(s, o) == HeadItems(s, o) + more;
  }
}
