/** The class of orbit/sdp_info.h:198-560 with its loops: getSdp and processSdp against
    their specifications SdpPrint.Text and SdpState.Process. */
module SdpInfos {
  import opened Common
  import opened SdpText
  import opened Candidates
  import opened SdpState
  import opened SdpPrint

  class SdpInfo {
    var sdp: Sdp
    const table: seq<RtpMap>

    constructor (encoding: Encoding, redFec: bool, audioDirection: Direction, videoDirection: Direction)
      ensures sdp == NewSdp(audioDirection, videoDirection) && table == InternalTable(encoding, redFec)
    {
      sdp := NewSdp(audioDirection, videoDirection);
      table := InternalTable(encoding, redFec);
    }

    // -------------------------------------------------------------- printing

    /** sdp << line << endl */
    static method Print(out: string, ghost items: seq<Item>, item: Item) returns (more: string)
      requires out == Text(items)
      ensures more == Text(items + [item])
    {
      hide Text, Render;
      TextSnoc(items, item);
      more := out + Render(item) + "\n";
    }

    /** The lines of a list literal, one by one. */
    static method PrintAll(out: string, ghost items: seq<Item>, all: seq<Item>) returns (more: string)
      requires out == Text(items)
      ensures more == Text(items + all)
    {
      hide Text;
      more := out;
      assert items + all[..0] == items;
      for n := 0 to |all|
        invariant more == Text(items + all[..n])
      {
        more := Print(more, items + all[..n], all[n]);
        assert items + all[..n] + [all[n]] == items + all[..n + 1];
      }
      assert all[..|all|] == all;
    }

    static method PrintCandidates(out: string, ghost items: seq<Item>, candidates: seq<Candidate>, media: MediaType,
                                  all: bool) returns (more: string)
      requires out == Text(items)
      ensures more == Text(items + CandidateItems(candidates, media, all, |candidates|))
    {
      hide Text;
      more := out;
      assert items + [] == items;
      for n := 0 to |candidates|
        invariant more == Text(items + CandidateItems(candidates, media, all, n))
      {
        ghost var before := CandidateItems(candidates, media, all, n);
        if Listed(candidates[n], media, all) {
          more := Print(more, items + before, CandidateLine(candidates[n]));
          assert items + before + [CandidateLine(candidates[n])] == items + CandidateItems(candidates, media, all, n + 1);
        } else {
          assert CandidateItems(candidates, media, all, n + 1) == before;
        }
      }
    }

    static method PrintMids(out: string, ghost items: seq<Item>, tags: seq<BundleTag>, media: MediaType)
      returns (more: string)
      requires out == Text(items)
      ensures more == Text(items + MidItems(tags, media, |tags|))
    {
      hide Text;
      more := out;
      assert items + [] == items;
      for n := 0 to |tags|
        invariant more == Text(items + MidItems(tags, media, n))
      {
        ghost var before := MidItems(tags, media, n);
        if tags[n].mediaType == media {
          more := Print(more, items + before, Mid(tags[n].id));
          assert items + before + [Mid(tags[n].id)] == items + MidItems(tags, media, n + 1);
        } else {
          assert MidItems(tags, media, n + 1) == before;
        }
      }
    }

    static method PrintCryptos(out: string, ghost items: seq<Item>, cryptos: seq<Crypto>, media: MediaType)
      returns (more: string)
      requires out == Text(items)
      ensures more == Text(items + CryptoItems(cryptos, media, |cryptos|))
    {
      hide Text;
      more := out;
      assert items + [] == items;
      for n := 0 to |cryptos|
        invariant more == Text(items + CryptoItems(cryptos, media, n))
      {
        ghost var before := CryptoItems(cryptos, media, n);
        if cryptos[n].mediaType == media {
          more := Print(more, items + before, CryptoLine(cryptos[n]));
          assert items + before + [CryptoLine(cryptos[n])] == items + CryptoItems(cryptos, media, n + 1);
        } else {
          assert CryptoItems(cryptos, media, n + 1) == before;
        }
      }
    }

    static method PrintParameters(out: string, ghost items: seq<Item>, pt: nat, parameters: seq<(string, string)>)
      returns (more: string)
      requires out == Text(items)
      ensures more == Text(items + FmtpItems(pt, parameters, |parameters|))
    {
      hide Text;
      more := out;
      assert items + [] == items;
      for n := 0 to |parameters|
        invariant more == Text(items + FmtpItems(pt, parameters, n))
      {
        ghost var before := FmtpItems(pt, parameters, n);
        more := Print(more, items + before, Fmtp(pt, parameters[n].0, parameters[n].1));
        assert items + before + [Fmtp(pt, parameters[n].0, parameters[n].1)] == items + FmtpItems(pt, parameters, n + 1);
      }
    }

    static method PrintFeedback(out: string, ghost items: seq<Item>, pt: nat, types: seq<string>)
      returns (more: string)
      requires out == Text(items)
      ensures more == Text(items + FeedbackItems(pt, types, |types|))
    {
      hide Text;
      more := out;
      assert items + [] == items;
      for n := 0 to |types|
        invariant more == Text(items + FeedbackItems(pt, types, n))
      {
        ghost var before := FeedbackItems(pt, types, n);
        more := Print(more, items + before, Feedback(pt, types[n]));
        assert items + before + [Feedback(pt, types[n])] == items + FeedbackItems(pt, types, n + 1);
      }
    }

    static method PrintCodec(out: string, ghost items: seq<Item>, r: RtpMap, minBitrate: nat, o: Options)
      returns (more: string)
      requires out == Text(items)
      ensures more == Text(items + CodecItems(r, minBitrate, o))
    {
      hide Text, FmtpItems, FeedbackItems, Dec;
      var pt := r.payloadType;
      if r.mediaType == AUDIO {
        var line := Rtpmap(pt, r.encodingName, r.clockRate, r.channels);
        more := Print(out, items, line);
        more := PrintParameters(more, items + [line], pt, r.formatParameters);
        assert items + [line] + FmtpItems(pt, r.formatParameters, |r.formatParameters|) == items + CodecItems(r, minBitrate, o);
      } else {
        var line := Rtpmap(pt, r.encodingName, r.clockRate, 1);
        ghost var feedback := FeedbackItems(pt, r.feedbackTypes, |r.feedbackTypes|);
        ghost var parameters := FmtpItems(pt, r.formatParameters, |r.formatParameters|);
        more := Print(out, items, line);
        more := PrintFeedback(more, items + [line], pt, r.feedbackTypes);
        more := PrintParameters(more, items + [line] + feedback, pt, r.formatParameters);
        if o.setMinBitrate {
          var last := Fmtp(pt, MIN_BITRATE, Dec(minBitrate));
          more := Print(more, items + [line] + feedback + parameters, last);
          assert items + [line] + feedback + parameters + [last] == items + CodecItems(r, minBitrate, o);
        } else {
          assert items + [line] + feedback + parameters == items + CodecItems(r, minBitrate, o);
        }
      }
    }

    static method PrintPayloads(out: string, ghost items: seq<Item>, payloads: seq<RtpMap>, media: MediaType,
                                minBitrate: nat, o: Options) returns (more: string)
      requires out == Text(items)
      ensures more == Text(items + PayloadItems(payloads, media, minBitrate, o, |payloads|))
    {
      hide Text, CodecItems;
      more := out;
      assert items + [] == items;
      for n := 0 to |payloads|
        invariant more == Text(items + PayloadItems(payloads, media, minBitrate, o, n))
      {
        ghost var before := PayloadItems(payloads, media, minBitrate, o, n);
        if payloads[n].mediaType == media {
          more := PrintCodec(more, items + before, payloads[n], minBitrate, o);
          assert items + before + CodecItems(payloads[n], minBitrate, o)
              == items + PayloadItems(payloads, media, minBitrate, o, n + 1);
        } else {
          assert PayloadItems(payloads, media, minBitrate, o, n + 1) == before;
        }
      }
    }

    static method PrintExtended(out: string, ghost items: seq<Item>, ssrcs: seq<nat>, msid: string)
      returns (more: string)
      requires out == Text(items)
      ensures more == Text(items + ExtendedItems(ssrcs, msid, |ssrcs|))
    {
      hide Text, SsrcItems, Dec;
      more := out;
      assert items + [] == items;
      for n := 0 to |ssrcs|
        invariant more == Text(items + ExtendedItems(ssrcs, msid, n))
      {
        ghost var before := ExtendedItems(ssrcs, msid, n);
        var block := SsrcItems(ssrcs[n], "o/orbit", msid, "v" + Dec(n + 1));
        more := PrintAll(more, items + before, block);
        assert items + before + block == items + ExtendedItems(ssrcs, msid, n + 1);
      }
    }

    /** The payload types of the audio media line; first is set until one is printed. */
    static method ListAudioTypes(payloads: seq<RtpMap>) returns (types: string)
      ensures types == AudioTypes(payloads, |payloads|)
    {
      types := "";
      var first := true;
      for n := 0 to |payloads|
        invariant types == AudioTypes(payloads, n) && first == (Count(payloads, AUDIO, n) == 0)
      {
        if payloads[n].mediaType == AUDIO {
          if !first {
            types := types + " ";
          }
          types := types + Dec(payloads[n].payloadType);
          first := false;
        }
      }
    }

    /** The payload types of the video media line, counted against videoCodecs. */
    static method ListVideoTypes(payloads: seq<RtpMap>, videoCodecs: int) returns (types: string)
      ensures types == VideoTypes(payloads, videoCodecs, |payloads|)
    {
      types := "";
      var codecCounter := 0;
      for n := 0 to |payloads|
        invariant types == VideoTypes(payloads, videoCodecs, n) && codecCounter == Count(payloads, VIDEO, n)
      {
        if payloads[n].mediaType == VIDEO {
          codecCounter := codecCounter + 1;
          types := types + Dec(payloads[n].payloadType) + (if codecCounter < videoCodecs then " " else "");
        }
      }
    }

    method PrintTransport(out: string, ghost items: seq<Item>, username: string, password: string, d: Direction,
                          media: MediaType) returns (more: string)
      requires out == Text(items)
      ensures more == Text(items + TransportItems(sdp, username, password, d, media))
    {
      hide Text, MidItems, CryptoItems, TransportItems;
      var session := sdp.session;
      var a := [Ufrag(username), Pwd(password)];
      var b := if session.isFingerprint then [Fingerprint(session.fingerprint)] else [];
      var c := if session.setup != "" then [Plain("a=setup:" + session.setup)] else [];
      more := PrintAll(out, items, a + b + c + [DirectionLine(d)]);
      ghost var before := items + (a + b + c + [DirectionLine(d)]);
      more := PrintMids(more, before, session.bundleTags, media);
      before := before + MidItems(session.bundleTags, media, |session.bundleTags|);
      var e := if session.isRtcpMux then [RtcpMux] else [];
      more := PrintAll(more, before, e);
      more := PrintCryptos(more, before + e, sdp.cryptos, media);
      TransportParts(items, sdp, username, password, d, media);
    }

    static lemma TransportParts(items: seq<Item>, s: Sdp, username: string, password: string, d: Direction, media: MediaType)
      ensures
        var session := s.session;
        var a := [Ufrag(username), Pwd(password)];
        var b := if session.isFingerprint then [Fingerprint(session.fingerprint)] else [];
        var c := if session.setup != "" then [Plain("a=setup:" + session.setup)] else [];
        var e := if session.isRtcpMux then [RtcpMux] else [];
        items + (a + b + c + [DirectionLine(d)]) + MidItems(session.bundleTags, media, |session.bundleTags|) + e
        + CryptoItems(s.cryptos, media, |s.cryptos|)
        == items + TransportItems(s, username, password, d, media)
    {
      hide MidItems, CryptoItems;
    }

    method PrintAudio(out: string, ghost items: seq<Item>, o: Options) returns (more: string)
      requires out == Text(items)
      modifies this
      ensures more == Text(items + AudioItems(old(sdp), o))
      ensures sdp == old(sdp).(audio := old(sdp).audio.(ssrc := AudioSsrc(old(sdp))))
    {
      hide Text, CandidateItems, TransportItems, PayloadItems, SsrcItems, AudioTypes;
      var s := sdp;
      var types := ListAudioTypes(s.payloads.list);
      var media := MLine(AUDIO, " 1 UDP/TLS/RTP/" + ProfileText(s.session.profile) + types);
      assert [media, CONNECTION] + RtcpItems(s) == AudioHead(s);
      more := PrintAll(out, items, [media, CONNECTION] + RtcpItems(s));
      ghost var b := CandidateItems(s.candidates, AUDIO, s.session.isBundle, |s.candidates|);
      more := PrintCandidates(more, items + AudioHead(s), s.candidates, AUDIO, s.session.isBundle);
      var username := if s.audio.username != "" then s.audio.username else s.video.username;
      var password := if s.audio.username != "" then s.audio.password else s.video.password;
      ghost var c := TransportItems(s, username, password, s.audio.direction, AUDIO);
      more := PrintTransport(more, items + AudioHead(s) + b, username, password, s.audio.direction, AUDIO);
      ghost var d := PayloadItems(s.payloads.list, AUDIO, s.extra.minBitrate, o, |s.payloads.list|);
      more := PrintPayloads(more, items + AudioHead(s) + b + c, s.payloads.list, AUDIO, s.extra.minBitrate, o);
      if sdp.audio.ssrc == 0 {
        sdp := sdp.(audio := sdp.audio.(ssrc := 44444));
      }
      var e := [Plain("a=ptime:50"), Plain("a=maxptime:60")];
      var f := SsrcItems(sdp.audio.ssrc, "o/i14u9pJrxRKAsu", o.msid, "a0");
      more := PrintAll(more, items + AudioHead(s) + b + c + d, e + f + NackItems(o));
      AudioParts(items, s, o);
    }

    static lemma AudioParts(items: seq<Item>, s: Sdp, o: Options)
      ensures
        var b := CandidateItems(s.candidates, AUDIO, s.session.isBundle, |s.candidates|);
        var c := TransportItems(s, AudioUsername(s), AudioPassword(s), s.audio.direction, AUDIO);
        var d := PayloadItems(s.payloads.list, AUDIO, s.extra.minBitrate, o, |s.payloads.list|);
        var e := [Plain("a=ptime:50"), Plain("a=maxptime:60")];
        var f := SsrcItems(AudioSsrc(s), "o/i14u9pJrxRKAsu", o.msid, "a0");
        items + AudioHead(s) + b + c + d + (e + f + NackItems(o)) == items + AudioItems(s, o)
    {
      hide CandidateItems, TransportItems, PayloadItems, SsrcItems, AudioHead, NackItems;
    }

    method PrintVideo(out: string, ghost items: seq<Item>, o: Options) returns (more: string)
      requires out == Text(items)
      ensures more == Text(items + VideoItems(sdp, o))
    {
      hide Text, CandidateItems, TransportItems, PayloadItems, SsrcItems, VideoTypes, ExtendedItems;
      var s := sdp;
      var types := ListVideoTypes(s.payloads.list, s.video.codecs);
      var media := MLine(VIDEO, " 1 UDP/TLS/RTP/" + ProfileText(s.session.profile) + types);
      assert [media, Bandwidth(s.extra.targetBandwidth), CONNECTION] + RtcpItems(s) == VideoHead(s);
      more := PrintAll(out, items, [media, Bandwidth(s.extra.targetBandwidth), CONNECTION] + RtcpItems(s));
      ghost var b := CandidateItems(s.candidates, VIDEO, false, |s.candidates|);
      more := PrintCandidates(more, items + VideoHead(s), s.candidates, VIDEO, false);
      ghost var c := TransportItems(s, s.video.username, s.video.password, s.video.direction, VIDEO);
      more := PrintTransport(more, items + VideoHead(s) + b, s.video.username, s.video.password, s.video.direction, VIDEO);
      ghost var d := PayloadItems(s.payloads.list, VIDEO, s.extra.minBitrate, o, |s.payloads.list|);
      more := PrintPayloads(more, items + VideoHead(s) + b + c, s.payloads.list, VIDEO, s.extra.minBitrate, o);
      more := PrintAll(more, items + VideoHead(s) + b + c + d, OptionalSsrcItems(s.video.ssrc, o.msid));
      ghost var e := OptionalSsrcItems(s.video.ssrc, o.msid);
      more := PrintExtended(more, items + VideoHead(s) + b + c + d + e, s.extra.extendedSsrc, o.msid);
      ghost var f := ExtendedItems(s.extra.extendedSsrc, o.msid, |s.extra.extendedSsrc|);
      more := PrintAll(more, items + VideoHead(s) + b + c + d + e + f, OptionalSsrcItems(s.extra.rtxSsrc, o.msid));
      VideoParts(items, s, o);
    }

    static lemma VideoParts(items: seq<Item>, s: Sdp, o: Options)
      ensures
        var b := CandidateItems(s.candidates, VIDEO, false, |s.candidates|);
        var c := TransportItems(s, s.video.username, s.video.password, s.video.direction, VIDEO);
        var d := PayloadItems(s.payloads.list, VIDEO, s.extra.minBitrate, o, |s.payloads.list|);
        var e := OptionalSsrcItems(s.video.ssrc, o.msid);
        var f := ExtendedItems(s.extra.extendedSsrc, o.msid, |s.extra.extendedSsrc|);
        items + VideoHead(s) + b + c + d + e + f + OptionalSsrcItems(s.extra.rtxSsrc, o.msid) == items + VideoItems(s, o)
    {
      hide CandidateItems, TransportItems, PayloadItems, OptionalSsrcItems, ExtendedItems, VideoHead;
    }

    /** getSdp. Its loops over the bundle tags count in 8 bits and only end below 256 tags. */
    method GetSdp(o: Options) returns (text: string)
      requires |sdp.session.bundleTags| <= 255
      modifies this
      ensures text == Text(Items(old(sdp), o))
      ensures sdp == if old(sdp).audio.has then old(sdp).(audio := old(sdp).audio.(ssrc := AudioSsrc(old(sdp)))) else old(sdp)
    {
      hide Text, HeadItems, AudioItems, VideoItems;
      ghost var s := sdp;
      text := "";
      assert Text([]) == "" by { NoText(); }
      text := PrintAll(text, [], HeadItems(sdp, o));
      ghost var items := [] + HeadItems(s, o);
      if sdp.audio.has {
        text := PrintAudio(text, items, o);
        items := items + AudioItems(s, o);
      }
      if sdp.video.has {
        text := PrintVideo(text, items, o);
        VideoIgnoresAudioSsrc(s, o);
        items := items + VideoItems(s, o);
      }
      assert items == Items(s, o);
    }

    static lemma NoText()
      ensures Text([]) == ""
    {}

    static lemma VideoIgnoresAudioSsrc(s: Sdp, o: Options)
      ensures VideoItems(s.(audio := s.audio.(ssrc := AudioSsrc(s))), o) == VideoItems(s, o)
    {
      hide CandidateItems, MidItems, CryptoItems, PayloadItems, SsrcItems, VideoTypes, ExtendedItems, OptionalSsrcItems;
    }

    // -------------------------------------------------------------- parsing

    /** The loop of an a=mid line. */
    static method MarkTags(tags: seq<BundleTag>, id: string, media: MediaType) returns (marked: seq<BundleTag>)
      ensures marked == SetMedia(tags, id, media)
    {
      marked := tags;
      for n := 0 to |tags|
        invariant |marked| == |tags|
        invariant forall k :: 0 <= k < n ==> marked[k] == SetMedia(tags, id, media)[k]
        invariant forall k :: n <= k < |tags| ==> marked[k] == tags[k]
      {
        if marked[n].id == id {
          marked := marked[n := marked[n].(mediaType := media)];
        }
      }
    }

    /** The search of an a=rtpmap line through the internal table. */
    method FindCodec(start: Match, pt: nat) returns (m: Match)
      ensures m == Matched(table, |table|, start, pt)
    {
      m := start;
      for n := 0 to |table|
        invariant m == Matched(table, n, start, pt)
      {
        if SameCodec(table[n], m.codec) {
          m := Assign(m, table[n], pt);
        }
      }
    }

    /** The loop of an a=fmtp line. */
    static method SaveParameter(payloads: seq<RtpMap>, pt: nat, key: string, value: string) returns (saved: seq<RtpMap>)
      ensures saved == SaveFormat(payloads, pt, key, value)
    {
      hide Insert;
      saved := payloads;
      for n := 0 to |payloads|
        invariant |saved| == |payloads|
        invariant forall k :: 0 <= k < n ==> saved[k] == SaveFormat(payloads, pt, key, value)[k]
        invariant forall k :: n <= k < |payloads| ==> saved[k] == payloads[k]
      {
        if saved[n].payloadType == pt {
          saved := saved[n := saved[n].(formatParameters := Insert(saved[n].formatParameters, key, value))];
        }
      }
    }

    /** The inner loop that maps one feedback line after the parse. */
    static method AddFeedback(payloads: seq<RtpMap>, pt: nat, feedback: string) returns (given: seq<RtpMap>)
      ensures given == SaveFeedback(payloads, pt, feedback)
    {
      given := payloads;
      for n := 0 to |payloads|
        invariant |given| == |payloads|
        invariant forall k :: 0 <= k < n ==> given[k] == SaveFeedback(payloads, pt, feedback)[k]
        invariant forall k :: n <= k < |payloads| ==> given[k] == payloads[k]
      {
        if given[n].payloadType == pt {
          given := given[n := given[n].(feedbackTypes := given[n].feedbackTypes + [feedback])];
        }
      }
    }

    /** The loop that hands the credentials to the candidates. */
    static method GiveCredentials(s: Sdp) returns (candidates: seq<Candidate>)
      ensures candidates == SetCredentials(s.candidates, s)
    {
      candidates := s.candidates;
      for n := 0 to |s.candidates|
        invariant |candidates| == |s.candidates|
        invariant forall k :: 0 <= k < n ==> candidates[k] == SetCredentials(s.candidates, s)[k]
        invariant forall k :: n <= k < |s.candidates| ==> candidates[k] == s.candidates[k]
      {
        candidates := candidates[n := Credentials(candidates[n], s)];
      }
    }

    static method ReadTransport(start: Parse, line: string, h: TransportHits) returns (r: Option<Parse>)
      ensures r == HandleTransport(start, line, h)
    {
      hide OnCandidate, OnCrypto, OnUser, OnPass, SetMedia, WithSession;
      r := Some(start);
      if h.cand {
        r := OnCandidate(start, line);
        if r.None? { return; }
      }
      if h.crypt {
        r := OnCrypto(r.value, line);
        if r.None? { return; }
      }
      if h.user {
        r := OnUser(r.value, line);
        if r.None? { return; }
      }
      if h.pass {
        r := OnPass(r.value, line);
        if r.None? { return; }
      }
      if h.mid {
        var p := r.value;
        var parts := Split(line, {':', ' ', '\r', '\n'}, 4);
        if |parts| >= 2 {
          if |p.sdp.session.bundleTags| > 255 {
            r := None;
          } else {
            var tags := MarkTags(p.sdp.session.bundleTags, parts[1], p.mtype);
            r := Some(WithSession(p, p.sdp.session.(bundleTags := tags)));
          }
        }
      }
    }

    method ReadRtpmap(p: Parse, line: string) returns (r: Option<Parse>)
      ensures r == OnRtpmap(p, table, line)
    {
      hide Matched, CountCodec, ToUint, Split;
      var parts := Split(line, {' ', ':', '/', '\n'}, 4);
      if |parts| < 4 {
        return None;
      }
      var pt, clock := ToUint(parts[1]), ToUint(parts[3]);
      var own := p.sdp.payloads;
      var m := FindCodec(Match(Codec(pt, parts[2], clock, p.mtype, 0, []), false, own.inOut, own.outIn), pt);
      if m.found {
        r := Some(p.(sdp := CountCodec(p.sdp, p.mtype).(payloads := Payloads(own.list + [m.codec], m.inOut, m.outIn))));
      } else {
        r := Some(p);
      }
    }

    method ReadCodec(start: Parse, line: string, h: CodecHits) returns (r: Option<Parse>)
      ensures r == HandleCodec(start, table, line, h)
    {
      hide OnSsrc, OnSsrcGroup, OnRtpmap, OnFeedback, OnBandwidth, SaveFormat, WithPayloads, ToUint, Split;
      r := Some(start);
      if h.ssrc {
        r := OnSsrc(start, line);
        if r.None? { return; }
      }
      if h.ssrcGroup {
        r := Some(OnSsrcGroup(r.value, line));
      }
      if h.rtpmap {
        r := ReadRtpmap(r.value, line);
        if r.None? { return; }
      }
      if h.feedback {
        r := Some(OnFeedback(r.value, line));
      }
      if h.fmtp {
        var p := r.value;
        var parts := Split(line, {' ', ':', '='}, 4);
        if |parts| >= 4 {
          var key, value := "none", parts[3];
          if |parts| != 4 {
            key, value := parts[3], parts[4];
          }
          var list := SaveParameter(p.sdp.payloads.list, ToUint(parts[2]), key, value);
          r := Some(WithPayloads(p, p.sdp.payloads.(list := list)));
        }
      }
      if h.bandwidth {
        r := Some(OnBandwidth(r.value, line));
      }
    }

    method ReadLine(p: Parse, line: string) returns (r: Option<Parse>)
      ensures r == ProcessLine(p, table, line)
    {
      hide Scan, HandleSession, HandleTransport, HandleCodec;
      var h := Scan(line);
      r := HandleSession(p, line, h.session);
      if r.None? { return; }
      r := ReadTransport(r.value, line, h.transport);
      if r.None? { return; }
      r := ReadCodec(r.value, line, h.codec);
    }

    /** The getline loop; None is an access out of range. */
    method ReadLines(start: Parse, text: string) returns (r: Option<Parse>)
      ensures r == ProcessLines(start, table, Lines(text), |Lines(text)|)
    {
      hide ProcessLine, FirstOf;
      var p, rest, n := start, text, 0;
      ghost var lines := Lines(text);
      while rest != ""
        invariant 0 <= n <= |lines| && Lines(rest) == lines[n..]
        invariant ProcessLines(start, table, lines, n) == Some(p)
        decreases |rest|
      {
        var pos := FirstOf(rest, {'\n'});
        var line := rest[..pos];
        assert lines[n] == line by { assert lines[n..][0] == lines[n]; }
        var q := ReadLine(p, line);
        rest := if pos == |rest| then "" else rest[pos + 1..];
        n := n + 1;
        assert lines[n..] == lines[n - 1..][1..];
        if q.None? {
          StaysUndefined(start, table, lines, n, |lines|);
          return None;
        }
        p := q.value;
      }
      r := Some(p);
    }

    static lemma {:induction false} StaysUndefined(p: Parse, table: seq<RtpMap>, lines: seq<string>, n: nat, m: nat)
      requires n <= m <= |lines| && ProcessLines(p, table, lines, n) == None
      ensures ProcessLines(p, table, lines, m) == None
      decreases m
    {
      hide ProcessLine;
      if n < m {
        StaysUndefined(p, table, lines, n, m - 1);
      }
    }

    /** The loop over the feedback lines. */
    static method GiveFeedback(payloads: seq<RtpMap>, feedback: seq<string>) returns (r: Option<seq<RtpMap>>)
      ensures r == MapFeedback(payloads, feedback, |feedback|)
    {
      hide Split, ToUint, SaveFeedback;
      var list := payloads;
      for n := 0 to |feedback|
        invariant MapFeedback(payloads, feedback, n) == Some(list)
      {
        var parts := Split(feedback[n], {' ', ':'}, 2);
        if |parts| < 3 {
          StaysUnmapped(payloads, feedback, n + 1, |feedback|);
          return None;
        }
        list := AddFeedback(list, ToUint(parts[1]), parts[2]);
      }
      r := Some(list);
    }

    static lemma {:induction false} StaysUnmapped(payloads: seq<RtpMap>, feedback: seq<string>, n: nat, m: nat)
      requires n <= m <= |feedback| && MapFeedback(payloads, feedback, n) == None
      ensures MapFeedback(payloads, feedback, m) == None
      decreases m
    {
      hide Split, ToUint, SaveFeedback;
      if n < m {
        StaysUnmapped(payloads, feedback, n, m - 1);
      }
    }

    /** processSdp; None when it reads past the end of a list of pieces. */
    method ProcessSdp(text: string, media: string) returns (ok: Option<bool>)
      modifies this
      ensures
        match Process(old(sdp), table, text, media)
        case Undefined => ok == None
        case Done(success, after) => ok == Some(success) && sdp == after
    {
      hide Lines, ProcessLines, MapFeedback, SetCredentials;
      var r := ReadLines(Parse(sdp, MediaOf(media), -1, []), text);
      if r.None? {
        return None;
      }
      var p := r.value;
      sdp := p.sdp;
      if sdp.video.username == "" && sdp.audio.username == "" {
        return Some(false);
      }
      if sdp.video.username == "" {
        sdp := sdp.(video := Share(sdp.video, sdp.audio));
      } else if sdp.audio.username == "" {
        sdp := sdp.(audio := Share(sdp.audio, sdp.video));
      }
      var candidates := GiveCredentials(sdp);
      var list := GiveFeedback(sdp.payloads.list, p.feedback);
      if list.None? {
        return None;
      }
      sdp := sdp.(candidates := candidates, payloads := sdp.payloads.(list := list.value));
      ok := Some(true);
    }
  }
}
