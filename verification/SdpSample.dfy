/** A description and the lines that are printed of it, character by character
    (orbit/sdp_info.cc:302-566). */
module SdpSample {
  import opened Common
  import opened SdpText
  import opened Candidates
  import opened SdpState
  import opened SdpPrint

  // A bundle with two codecs of each medium, and no candidates.
  const OPUS := RtpMap(111, "opus", 48000, AUDIO, 2, [], [("maxptime", "60"), ("none", "x")])
  const PCMU := RtpMap(0, "PCMU", 8000, AUDIO, 1, [], [])
  const VP8_90000 := RtpMap(100, "VP8", 90000, VIDEO, 1, ["nack", "ccm fir"], [("a1", "b")])
  const RED := RtpMap(116, "red", 90000, VIDEO, 1, [], [])

  const CODECS: seq<RtpMap> := [OPUS, PCMU, VP8_90000, RED]
  const KEYS: seq<Crypto> := [Crypto(1, "AES", "KEY", AUDIO)]
  const SESSION :=
    Session(true, [BundleTag("audio", AUDIO), BundleTag("video", VIDEO)], true, true, "AA:BB", "actpass", SAVPF)
  const OPTIONS := Options("ms", true, true)

  function Sample(): Sdp {
    Sdp(SESSION, Side(true, 0, SENDRECV, "ua", "pa", 0, 2), Side(true, 1, RECVONLY, "uv", "pv", 7, 2),
        Payloads(CODECS, map[], map[]), [], KEYS, VideoOnly(9, [8], 0, 500, 120))
  }

  /** The items print as these lines. */
  ghost predicate Prints(items: seq<Item>, lines: seq<string>) {
    |items| == |lines| && forall k :: 0 <= k < |items| ==> Render(items[k]) == lines[k]
  }

  lemma PrintsConcat(a: seq<Item>, x: seq<string>, b: seq<Item>, y: seq<string>)
    requires Prints(a, x) && Prints(b, y)
    ensures Prints(a + b, x + y)
  {
    hide Render;
  }

  lemma SmallNumbers()
    ensures Dec(0) == "0" && Dec(1) == "1" && Dec(2) == "2" && Dec(7) == "7" && Dec(8) == "8" && Dec(9) == "9"
    ensures Dec(100) == "100" && Dec(111) == "111" && Dec(116) == "116" && Dec(120) == "120" && Dec(500) == "500"
  {}

  lemma DecDigits(n: nat, digits: string)
    requires n >= 10 && digits != "" && Dec(n / 10) == digits[..|digits| - 1] && digits[|digits| - 1] == Digit(n % 10)
    ensures Dec(n) == digits
  {}

  lemma Thousands(n: nat, digits: string)
    requires 100 <= n < 1000 && Dec(n) == digits
    ensures Dec(10 * n) == digits + "0" && Dec(100 * n) == digits + "00"
  {
    hide Dec;
    DecDigits(10 * n, digits + "0");
    DecDigits(100 * n, digits + "00");
  }

  lemma Hundreds()
    ensures Dec(444) == "444" && Dec(480) == "480" && Dec(800) == "800" && Dec(900) == "900"
  {}

  lemma Fours()
    ensures Dec(44444) == "44444"
  {
    Hundreds();
    hide Dec;
    DecDigits(4444, "4444");
    DecDigits(44444, "44444");
  }

  lemma LargeNumbers()
    ensures Dec(8000) == "8000" && Dec(44444) == "44444" && Dec(48000) == "48000" && Dec(90000) == "90000"
  {
    hide Dec;
    Hundreds();
    Fours();
    Thousands(800, "800");
    Thousands(480, "480");
    Thousands(900, "900");
  }

  lemma TwoWords(a: string, b: string)
    ensures Spaced([a, b]) == a + " " + b && Tail([a, b]) == " " + a + " " + b
  {
    assert [b][1..] == [] && [a, b][1..] == [b];
    assert Tail([]) == "";
    assert Spaced([b]) == b + "" == b;
    assert Tail([b]) == " " + b;
    assert a + (" " + b) == a + " " + b;
    assert " " + (a + " " + b) == " " + a + " " + b;
  }

  lemma ThreeWords(a: string, b: string, c: string)
    ensures Spaced([a, b, c]) == a + " " + b + " " + c
  {
    TwoWords(b, c);
    assert [a, b, c][1..] == [b, c];
    assert a + (" " + b + " " + c) == a + " " + b + " " + c;
  }

  // ---------------------------------------------------------------- the head

  lemma GroupPrinted()
    ensures Render(Group(["audio", "video"])) == "a=group:BUNDLE audio video"
  {
    TwoWords("audio", "video");
    hide Tail;
    assert "a=group:BUNDLE" + " audio video" == "a=group:BUNDLE audio video";
    assert " " + "audio" + " " + "video" == " audio video";
  }

  lemma SemanticPrinted()
    ensures Render(Plain("a=msid-semantic: WMS " + "ms")) == "a=msid-semantic: WMS ms"
  {}

  lemma StartPrinted()
    ensures Prints([Plain("v=0"), Plain("o=- 0 0 IN IP4 127.0.0.1"), Plain("s=Orbit"), Plain("t=0 0")],
                   ["v=0", "o=- 0 0 IN IP4 127.0.0.1", "s=Orbit", "t=0 0"])
  {}

  lemma HeadPrinted()
    ensures
      Prints(HeadItems(Sample(), OPTIONS),
             ["v=0", "o=- 0 0 IN IP4 127.0.0.1", "s=Orbit", "t=0 0", "a=group:BUNDLE audio video", "a=msid-semantic: WMS ms"])
  {
    hide Render, Prints;
    StartPrinted();
    RestPrinted();
    assert TagIds(SESSION.bundleTags) == ["audio", "video"];
    var a: seq<Item> := [Plain("v=0"), Plain("o=- 0 0 IN IP4 127.0.0.1"), Plain("s=Orbit"), Plain("t=0 0")];
    var b: seq<Item> := [Group(["audio", "video"]), Plain("a=msid-semantic: WMS " + "ms")];
    var x := ["v=0", "o=- 0 0 IN IP4 127.0.0.1", "s=Orbit", "t=0 0"];
    var y := ["a=group:BUNDLE audio video", "a=msid-semantic: WMS ms"];
    PrintsConcat(a, x, b, y);
    assert HeadItems(Sample(), OPTIONS) == a + b;
    assert x + y == ["v=0", "o=- 0 0 IN IP4 127.0.0.1", "s=Orbit", "t=0 0", "a=group:BUNDLE audio video", "a=msid-semantic: WMS ms"];
  }

  lemma RestPrinted()
    ensures Prints([Group(["audio", "video"]), Plain("a=msid-semantic: WMS " + "ms")],
                   ["a=group:BUNDLE audio video", "a=msid-semantic: WMS ms"])
  {
    hide Render;
    GroupPrinted();
    SemanticPrinted();
  }

  // ---------------------------------------------------------------- the sections

  const TRANSPORT_LINES: seq<string> := ["a=fingerprint:sha-256 AA:BB", "a=setup:actpass"]

  lemma TagPrinted(media: MediaType, tag: string)
    requires (media == AUDIO && tag == "audio") || (media == VIDEO && tag == "video")
    ensures MidItems(SESSION.bundleTags, media, 2) == [Mid(tag)]
    ensures CryptoItems(KEYS, media, 1) == if media == AUDIO then [CryptoLine(KEYS[0])] else []
  {
    assert MidItems(SESSION.bundleTags, media, 0) == [];
    assert MidItems(SESSION.bundleTags, media, 1) == if media == AUDIO then [Mid("audio")] else [];
    assert CryptoItems(KEYS, media, 0) == [];
  }

  lemma SideLines(user: string, password: string, d: Direction, tag: string)
    ensures Render(Ufrag(user)) == "a=ice-ufrag:" + user && Render(Pwd(password)) == "a=ice-pwd:" + password
    ensures Render(Plain("a=setup:" + "actpass")) == "a=setup:actpass" && Render(RtcpMux) == "a=rtcp-mux"
    ensures Render(DirectionLine(d)) == if d == SENDONLY then "a=sendonly" else if d == SENDRECV then "a=sendrecv" else "a=recvonly"
    ensures Render(Mid(tag)) == "a=mid:" + tag
  {}

  lemma FingerprintLine()
    ensures Render(Fingerprint("AA:BB")) == "a=fingerprint:sha-256 AA:BB"
  {
    TwoWords("sha-256", "AA:BB");
    hide Spaced;
  }

  lemma CryptoPrinted()
    ensures Render(CryptoLine(KEYS[0])) == "a=crypto:1 AES inline:KEY"
  {
    ThreeWords("1", "AES", "inline:KEY");
    SmallNumbers();
    hide Dec, Spaced;
    assert "inline:" + KEYS[0].keyParams == "inline:KEY";
    assert [Dec(KEYS[0].tag), KEYS[0].cipherSuite, "inline:" + KEYS[0].keyParams] == ["1", "AES", "inline:KEY"];
  }

  lemma TransportIs(user: string, password: string, d: Direction, media: MediaType, tag: string)
    requires (media == AUDIO && tag == "audio") || (media == VIDEO && tag == "video")
    ensures
      TransportItems(Sample(), user, password, d, media)
      == [Ufrag(user), Pwd(password), Fingerprint("AA:BB"), Plain("a=setup:" + "actpass"), DirectionLine(d), Mid(tag), RtcpMux]
         + (if media == AUDIO then [CryptoLine(KEYS[0])] else [])
  {
    TagPrinted(media, tag);
    hide MidItems, CryptoItems;
  }

  lemma TransportPrinted(user: string, password: string, d: Direction, media: MediaType, tag: string)
    requires (media == AUDIO && tag == "audio") || (media == VIDEO && tag == "video")
    ensures
      Prints(TransportItems(Sample(), user, password, d, media),
             ["a=ice-ufrag:" + user, "a=ice-pwd:" + password, "a=fingerprint:sha-256 AA:BB", "a=setup:actpass",
              if d == SENDONLY then "a=sendonly" else if d == SENDRECV then "a=sendrecv" else "a=recvonly",
              "a=mid:" + tag, "a=rtcp-mux"]
             + (if media == AUDIO then ["a=crypto:1 AES inline:KEY"] else []))
  {
    FingerprintLine();
    CryptoPrinted();
    SideLines(user, password, d, tag);
    TransportIs(user, password, d, media, tag);
    hide Render, TransportItems;
    PrintsConcat(
      [Ufrag(user), Pwd(password), Fingerprint("AA:BB"), Plain("a=setup:" + "actpass"), DirectionLine(d), Mid(tag), RtcpMux],
      ["a=ice-ufrag:" + user, "a=ice-pwd:" + password, "a=fingerprint:sha-256 AA:BB", "a=setup:actpass",
       if d == SENDONLY then "a=sendonly" else if d == SENDRECV then "a=sendrecv" else "a=recvonly",
       "a=mid:" + tag, "a=rtcp-mux"],
      if media == AUDIO then [CryptoLine(KEYS[0])] else [],
      if media == AUDIO then ["a=crypto:1 AES inline:KEY"] else []);
  }

  lemma CodecsOf(media: MediaType)
    ensures
      PayloadItems(CODECS, media, 120, OPTIONS, 4)
      == if media == AUDIO then CodecItems(OPUS, 120, OPTIONS) + CodecItems(PCMU, 120, OPTIONS)
         else if media == VIDEO then CodecItems(VP8_90000, 120, OPTIONS) + CodecItems(RED, 120, OPTIONS)
         else []
  {
    hide CodecItems;
    var a, b, c, d := CodecItems(OPUS, 120, OPTIONS), CodecItems(PCMU, 120, OPTIONS),
                      CodecItems(VP8_90000, 120, OPTIONS), CodecItems(RED, 120, OPTIONS);
    assert PayloadItems(CODECS, media, 120, OPTIONS, 0) == [];
    assert PayloadItems(CODECS, media, 120, OPTIONS, 1) == if media == AUDIO then a else [];
    assert PayloadItems(CODECS, media, 120, OPTIONS, 2) == if media == AUDIO then a + b else [];
    assert PayloadItems(CODECS, media, 120, OPTIONS, 3) == if media == AUDIO then a + b else if media == VIDEO then c else [];
  }

  lemma OpusLines()
    ensures Render(Rtpmap(111, "opus", 48000, 2)) == "a=rtpmap:111 opus/48000/2"
  {
    SmallNumbers();
    LargeNumbers();
    hide Dec;
  }

  lemma PcmuLine()
    ensures Render(Rtpmap(0, "PCMU", 8000, 1)) == "a=rtpmap:0 PCMU/8000"
  {
    SmallNumbers();
    LargeNumbers();
    hide Dec;
  }

  lemma VideoLines()
    ensures Render(Rtpmap(100, "VP8", 90000, 1)) == "a=rtpmap:100 VP8/90000"
    ensures Render(Rtpmap(116, "red", 90000, 1)) == "a=rtpmap:116 red/90000"
  {
    SmallNumbers();
    LargeNumbers();
    hide Dec;
  }

  lemma ParameterLines()
    ensures Render(Fmtp(111, "maxptime", "60")) == "a=fmtp:111 maxptime=60" && Render(Fmtp(111, "none", "x")) == "a=fmtp:111 x"
    ensures Render(Fmtp(100, "a1", "b")) == "a=fmtp:100 a1=b"
  {
    SmallNumbers();
    hide Dec;
  }

  lemma BitrateLine(pt: nat, digits: string)
    requires Dec(pt) == digits
    ensures Render(Fmtp(pt, MIN_BITRATE, Dec(120))) == "a=fmtp:" + digits + " x-google-min-bitrate=120"
  {
    SmallNumbers();
    hide Dec;
    assert MIN_BITRATE + "=" + "120" == "x-google-min-bitrate=120";
    assert "a=fmtp:" + digits + " " + "x-google-min-bitrate=120" == "a=fmtp:" + digits + " x-google-min-bitrate=120";
  }

  lemma BitrateLine100()
    ensures Render(Fmtp(100, MIN_BITRATE, Dec(120))) == "a=fmtp:100 x-google-min-bitrate=120"
  {
    SmallNumbers();
    hide Dec, Render;
    BitrateLine(100, "100");
    assert "a=fmtp:" + "100" == "a=fmtp:100";
    assert "a=fmtp:100" + " x-google-min-bitrate=120" == "a=fmtp:100 x-google-min-bitrate=120";
  }

  lemma BitrateLine116()
    ensures Render(Fmtp(116, MIN_BITRATE, Dec(120))) == "a=fmtp:116 x-google-min-bitrate=120"
  {
    SmallNumbers();
    hide Dec, Render;
    BitrateLine(116, "116");
    assert "a=fmtp:" + "116" == "a=fmtp:116";
    assert "a=fmtp:116" + " x-google-min-bitrate=120" == "a=fmtp:116 x-google-min-bitrate=120";
  }

  lemma FeedbackPrinted()
    ensures Render(Feedback(100, "nack")) == "a=rtcp-fb:100 nack" && Render(Feedback(100, "ccm fir")) == "a=rtcp-fb:100 ccm fir"
    ensures Render(Feedback(111, "nack")) == "a=rtcp-fb:111 nack"
  {
    SmallNumbers();
    hide Dec;
  }

  lemma OpusItems()
    ensures CodecItems(OPUS, 120, OPTIONS) == [Rtpmap(111, "opus", 48000, 2), Fmtp(111, "maxptime", "60"), Fmtp(111, "none", "x")]
    ensures CodecItems(PCMU, 120, OPTIONS) == [Rtpmap(0, "PCMU", 8000, 1)]
  {
    assert FmtpItems(111, OPUS.formatParameters, 0) == [];
    assert FmtpItems(111, OPUS.formatParameters, 1) == [Fmtp(111, "maxptime", "60")];
    assert FmtpItems(111, OPUS.formatParameters, 2) == [Fmtp(111, "maxptime", "60"), Fmtp(111, "none", "x")];
    assert FmtpItems(0, [], 0) == [];
  }

  lemma Vp8Items()
    ensures
      CodecItems(VP8_90000, 120, OPTIONS)
      == [Rtpmap(100, "VP8", 90000, 1), Feedback(100, "nack"), Feedback(100, "ccm fir"), Fmtp(100, "a1", "b"),
          Fmtp(100, MIN_BITRATE, Dec(120))]
    ensures CodecItems(RED, 120, OPTIONS) == [Rtpmap(116, "red", 90000, 1), Fmtp(116, MIN_BITRATE, Dec(120))]
  {
    hide Dec;
    assert FmtpItems(100, VP8_90000.formatParameters, 0) == [];
    assert FmtpItems(100, VP8_90000.formatParameters, 1) == [Fmtp(100, "a1", "b")];
    assert FeedbackItems(100, VP8_90000.feedbackTypes, 0) == [];
    assert FeedbackItems(100, VP8_90000.feedbackTypes, 1) == [Feedback(100, "nack")];
    assert FeedbackItems(100, VP8_90000.feedbackTypes, 2) == [Feedback(100, "nack"), Feedback(100, "ccm fir")];
    assert FmtpItems(116, [], 0) == [] && FeedbackItems(116, [], 0) == [];
  }

  const AUDIO_CODEC_LINES: seq<string> :=
    ["a=rtpmap:111 opus/48000/2", "a=fmtp:111 maxptime=60", "a=fmtp:111 x", "a=rtpmap:0 PCMU/8000"]

  const VIDEO_CODEC_LINES: seq<string> :=
    ["a=rtpmap:100 VP8/90000", "a=rtcp-fb:100 nack", "a=rtcp-fb:100 ccm fir", "a=fmtp:100 a1=b",
     "a=fmtp:100 x-google-min-bitrate=120", "a=rtpmap:116 red/90000", "a=fmtp:116 x-google-min-bitrate=120"]

  lemma CodecsPrinted()
    ensures Prints(PayloadItems(CODECS, AUDIO, 120, OPTIONS, 4), AUDIO_CODEC_LINES)
    ensures Prints(PayloadItems(CODECS, VIDEO, 120, OPTIONS, 4), VIDEO_CODEC_LINES)
  {
    hide Render, Dec, CodecItems, PayloadItems;
    CodecsOf(AUDIO);
    CodecsOf(VIDEO);
    OpusItems();
    Vp8Items();
    OpusLines();
    PcmuLine();
    VideoLines();
    ParameterLines();
    BitrateLine100();
    BitrateLine116();
    FeedbackPrinted();
  }

  lemma TypesPrinted()
    ensures AudioTypes(CODECS, 4) == "111 0" && VideoTypes(CODECS, 2, 4) == "100 116"
  {
    SmallNumbers();
    hide Dec;
    assert Count(CODECS, AUDIO, 0) == 0 && Count(CODECS, AUDIO, 1) == 1;
    assert AudioTypes(CODECS, 0) == "";
    assert AudioTypes(CODECS, 1) == "111";
    assert AudioTypes(CODECS, 2) == "111 0";
    assert AudioTypes(CODECS, 3) == "111 0";
    assert Count(CODECS, VIDEO, 0) == Count(CODECS, VIDEO, 1) == Count(CODECS, VIDEO, 2) == 0;
    assert Count(CODECS, VIDEO, 3) == 1 && Count(CODECS, VIDEO, 4) == 2;
    assert VideoTypes(CODECS, 2, 0) == VideoTypes(CODECS, 2, 1) == VideoTypes(CODECS, 2, 2) == "";
    assert VideoTypes(CODECS, 2, 3) == "100 ";
  }

  lemma ConnectionLines()
    ensures Render(CONNECTION) == "c=IN IP4 0.0.0.0"
    ensures Render(Plain("a=rtcp:1 IN IP4 0.0.0.0")) == "a=rtcp:1 IN IP4 0.0.0.0"
  {}

  lemma BandwidthLine()
    ensures Render(Bandwidth(500)) == "b=AS:500"
  {
    SmallNumbers();
    hide Dec;
    assert "b=AS:" + "500" == "b=AS:500";
  }

  lemma MediaRest()
    ensures " 1 UDP/TLS/RTP/" + ProfileText(SAVPF) + "111 0" == " 1 UDP/TLS/RTP/SAVPF 111 0"
    ensures " 1 UDP/TLS/RTP/" + ProfileText(SAVPF) + "100 116" == " 1 UDP/TLS/RTP/SAVPF 100 116"
  {
    assert " 1 UDP/TLS/RTP/" + "SAVPF " == " 1 UDP/TLS/RTP/SAVPF ";
  }

  lemma MediaLine(media: MediaType, rest: string, line: string)
    requires media != OTHER && line == (if media == AUDIO then "m=audio" else "m=video") + rest
    ensures Render(MLine(media, rest)) == line
  {}

  lemma AudioMediaLine()
    ensures
      Prints(AudioHead(Sample()),
             ["m=audio 1 UDP/TLS/RTP/SAVPF 111 0", "c=IN IP4 0.0.0.0", "a=rtcp:1 IN IP4 0.0.0.0"])
  {
    hide Dec, AudioTypes, VideoTypes, Render, ProfileText;
    TypesPrinted();
    MediaRest();
    ConnectionLines();
    AudioLineText();
    assert AudioHead(Sample()) == [MLine(AUDIO, " 1 UDP/TLS/RTP/SAVPF 111 0"), CONNECTION, Plain("a=rtcp:1 IN IP4 0.0.0.0")];
  }

  lemma AudioLineText()
    ensures Render(MLine(AUDIO, " 1 UDP/TLS/RTP/SAVPF 111 0")) == "m=audio 1 UDP/TLS/RTP/SAVPF 111 0"
  {
    hide Render;
    MediaLine(AUDIO, " 1 UDP/TLS/RTP/SAVPF 111 0", "m=audio 1 UDP/TLS/RTP/SAVPF 111 0");
  }

  lemma VideoLineText()
    ensures Render(MLine(VIDEO, " 1 UDP/TLS/RTP/SAVPF 100 116")) == "m=video 1 UDP/TLS/RTP/SAVPF 100 116"
  {
    hide Render;
    MediaLine(VIDEO, " 1 UDP/TLS/RTP/SAVPF 100 116", "m=video 1 UDP/TLS/RTP/SAVPF 100 116");
  }

  lemma VideoMediaLine()
    ensures
      Prints(VideoHead(Sample()),
             ["m=video 1 UDP/TLS/RTP/SAVPF 100 116", "b=AS:500", "c=IN IP4 0.0.0.0", "a=rtcp:1 IN IP4 0.0.0.0"])
  {
    hide Dec, AudioTypes, VideoTypes, Render, ProfileText;
    TypesPrinted();
    MediaRest();
    ConnectionLines();
    VideoLineText();
    BandwidthLine();
    assert VideoHead(Sample())
        == [MLine(VIDEO, " 1 UDP/TLS/RTP/SAVPF 100 116"), Bandwidth(500), CONNECTION, Plain("a=rtcp:1 IN IP4 0.0.0.0")];
  }

  /** The four lines of an SSRC behind a head that is given. */
  lemma SsrcLines(ssrc: nat, head: string, cname: string, name: string, lines: seq<string>)
    requires head == "a=ssrc:" + Dec(ssrc) + " " && |lines| == 4
    requires lines[0] == head + ("cname:" + cname) && lines[1] == head + ("msid:ms " + name)
    requires lines[2] == head + "mslabel:ms" && lines[3] == head + ("label:ms" + name)
    ensures Prints(SsrcItems(ssrc, cname, "ms", name), lines)
  {
    hide Dec;
    assert "msid:" + "ms" + " " + name == "msid:ms " + name && "mslabel:" + "ms" == "mslabel:ms";
    assert "label:" + "ms" + name == "label:ms" + name;
  }

  const SSRC_44444: seq<string> := [
    "a=ssrc:44444 cname:o/i14u9pJrxRKAsu", "a=ssrc:44444 msid:ms a0", "a=ssrc:44444 mslabel:ms", "a=ssrc:44444 label:msa0"]
  const SSRC_7: seq<string> := ["a=ssrc:7 cname:o/orbit", "a=ssrc:7 msid:ms v0", "a=ssrc:7 mslabel:ms", "a=ssrc:7 label:msv0"]
  const SSRC_8: seq<string> := ["a=ssrc:8 cname:o/orbit", "a=ssrc:8 msid:ms v1", "a=ssrc:8 mslabel:ms", "a=ssrc:8 label:msv1"]
  const SSRC_9: seq<string> := ["a=ssrc:9 cname:o/orbit", "a=ssrc:9 msid:ms v0", "a=ssrc:9 mslabel:ms", "a=ssrc:9 label:msv0"]

  lemma AudioSsrcLines()
    ensures Prints(SsrcItems(44444, "o/i14u9pJrxRKAsu", "ms", "a0"), SSRC_44444)
  {
    LargeNumbers();
    hide Dec, Prints, SsrcItems;
    SsrcLines(44444, "a=ssrc:44444 ", "o/i14u9pJrxRKAsu", "a0", SSRC_44444);
  }

  lemma OwnSsrcLines()
    ensures Prints(SsrcItems(7, "o/orbit", "ms", "v0"), SSRC_7)
  {
    SmallNumbers();
    hide Dec, Prints, SsrcItems;
    SsrcLines(7, "a=ssrc:7 ", "o/orbit", "v0", SSRC_7);
  }

  lemma ExtendedSsrcLines()
    ensures Prints(SsrcItems(8, "o/orbit", "ms", "v1"), SSRC_8)
  {
    SmallNumbers();
    hide Dec, Prints, SsrcItems;
    SsrcLines(8, "a=ssrc:8 ", "o/orbit", "v1", SSRC_8);
  }

  lemma RtxSsrcLines()
    ensures Prints(SsrcItems(9, "o/orbit", "ms", "v0"), SSRC_9)
  {
    SmallNumbers();
    hide Dec, Prints, SsrcItems;
    SsrcLines(9, "a=ssrc:9 ", "o/orbit", "v0", SSRC_9);
  }

  const AUDIO_TRANSPORT: seq<string> :=
    ["a=ice-ufrag:ua", "a=ice-pwd:pa", "a=fingerprint:sha-256 AA:BB", "a=setup:actpass", "a=sendrecv", "a=mid:audio",
     "a=rtcp-mux", "a=crypto:1 AES inline:KEY"]
  const VIDEO_TRANSPORT: seq<string> :=
    ["a=ice-ufrag:uv", "a=ice-pwd:pv", "a=fingerprint:sha-256 AA:BB", "a=setup:actpass", "a=recvonly", "a=mid:video",
     "a=rtcp-mux"]

  lemma BothTransports()
    ensures Prints(TransportItems(Sample(), "ua", "pa", SENDRECV, AUDIO), AUDIO_TRANSPORT)
    ensures Prints(TransportItems(Sample(), "uv", "pv", RECVONLY, VIDEO), VIDEO_TRANSPORT)
  {
    hide Prints, TransportItems;
    TransportPrinted("ua", "pa", SENDRECV, AUDIO, "audio");
    TransportPrinted("uv", "pv", RECVONLY, VIDEO, "video");
    assert "a=ice-ufrag:" + "ua" == "a=ice-ufrag:ua" && "a=ice-pwd:" + "pa" == "a=ice-pwd:pa" && "a=mid:" + "audio" == "a=mid:audio";
    assert "a=ice-ufrag:" + "uv" == "a=ice-ufrag:uv" && "a=ice-pwd:" + "pv" == "a=ice-pwd:pv" && "a=mid:" + "video" == "a=mid:video";
    assert ["a=ice-ufrag:ua", "a=ice-pwd:pa", "a=fingerprint:sha-256 AA:BB", "a=setup:actpass", "a=sendrecv",
            "a=mid:audio", "a=rtcp-mux"] + ["a=crypto:1 AES inline:KEY"] == AUDIO_TRANSPORT;
    var none: seq<string> := [];
    assert VIDEO_TRANSPORT + none == VIDEO_TRANSPORT;
  }

  /** All the lines of the audio section. */
  lemma AudioPrinted()
    ensures
      Prints(AudioItems(Sample(), OPTIONS),
             ["m=audio 1 UDP/TLS/RTP/SAVPF 111 0", "c=IN IP4 0.0.0.0", "a=rtcp:1 IN IP4 0.0.0.0"]
             + AUDIO_TRANSPORT + AUDIO_CODEC_LINES + ["a=ptime:50", "a=maxptime:60"]
             + SSRC_44444 + ["a=rtcp-fb:111 nack"])
  {
    hide Prints, Render, Dec, TransportItems, PayloadItems, SsrcItems, AudioHead, CandidateItems;
    AudioMediaLine();
    BothTransports();
    CodecsPrinted();
    AudioSsrcLines();
    SmallParts();
    var s := Sample();
    var a := AudioHead(s);
    var b := TransportItems(s, "ua", "pa", SENDRECV, AUDIO);
    var c := PayloadItems(CODECS, AUDIO, 120, OPTIONS, 4);
    var d: seq<Item> := [Plain("a=ptime:50"), Plain("a=maxptime:60")];
    var e := SsrcItems(44444, "o/i14u9pJrxRKAsu", "ms", "a0");
    var x: seq<string> := ["m=audio 1 UDP/TLS/RTP/SAVPF 111 0", "c=IN IP4 0.0.0.0", "a=rtcp:1 IN IP4 0.0.0.0"];
    var y := SSRC_44444;
    PrintsConcat(a, x, b, AUDIO_TRANSPORT);
    PrintsConcat(a + b, x + AUDIO_TRANSPORT, c, AUDIO_CODEC_LINES);
    PrintsConcat(a + b + c, x + AUDIO_TRANSPORT + AUDIO_CODEC_LINES, d, ["a=ptime:50", "a=maxptime:60"]);
    PrintsConcat(a + b + c + d, x + AUDIO_TRANSPORT + AUDIO_CODEC_LINES + ["a=ptime:50", "a=maxptime:60"], e, y);
    PrintsConcat(a + b + c + d + e, x + AUDIO_TRANSPORT + AUDIO_CODEC_LINES + ["a=ptime:50", "a=maxptime:60"] + y,
                 [Feedback(111, "nack")], ["a=rtcp-fb:111 nack"]);
    assert a + [] == a;
    assert AudioItems(s, OPTIONS) == a + b + c + d + e + [Feedback(111, "nack")];
  }

  lemma SmallParts()
    ensures Prints([Plain("a=ptime:50"), Plain("a=maxptime:60")], ["a=ptime:50", "a=maxptime:60"])
    ensures Prints([Feedback(111, "nack")], ["a=rtcp-fb:111 nack"])
    ensures CandidateItems([], AUDIO, true, 0) == CandidateItems([], VIDEO, false, 0) == []
    ensures ExtendedItems([8], "ms", 1) == SsrcItems(8, "o/orbit", "ms", "v1")
  {
    FeedbackPrinted();
    SmallNumbers();
    hide Dec, SsrcItems;
    assert ExtendedItems([8], "ms", 0) == [];
    assert "v" + "1" == "v1";
  }

  /** All the lines of the video section. */
  lemma VideoPrinted()
    ensures
      Prints(VideoItems(Sample(), OPTIONS),
             ["m=video 1 UDP/TLS/RTP/SAVPF 100 116", "b=AS:500", "c=IN IP4 0.0.0.0", "a=rtcp:1 IN IP4 0.0.0.0"]
             + VIDEO_TRANSPORT + VIDEO_CODEC_LINES + SSRC_7 + SSRC_8 + SSRC_9)
  {
    hide Prints, Render, Dec, TransportItems, PayloadItems, SsrcItems, VideoHead, CandidateItems, ExtendedItems;
    VideoMediaLine();
    BothTransports();
    CodecsPrinted();
    OwnSsrcLines();
    ExtendedSsrcLines();
    RtxSsrcLines();
    SmallParts();
    var s := Sample();
    var a := VideoHead(s);
    var b := TransportItems(s, "uv", "pv", RECVONLY, VIDEO);
    var c := PayloadItems(CODECS, VIDEO, 120, OPTIONS, 4);
    var d, e, f := SsrcItems(7, "o/orbit", "ms", "v0"), SsrcItems(8, "o/orbit", "ms", "v1"), SsrcItems(9, "o/orbit", "ms", "v0");
    var x: seq<string> :=
      ["m=video 1 UDP/TLS/RTP/SAVPF 100 116", "b=AS:500", "c=IN IP4 0.0.0.0", "a=rtcp:1 IN IP4 0.0.0.0"];
    PrintsConcat(a, x, b, VIDEO_TRANSPORT);
    PrintsConcat(a + b, x + VIDEO_TRANSPORT, c, VIDEO_CODEC_LINES);
    PrintsConcat(a + b + c, x + VIDEO_TRANSPORT + VIDEO_CODEC_LINES, d, SSRC_7);
    PrintsConcat(a + b + c + d, x + VIDEO_TRANSPORT + VIDEO_CODEC_LINES + SSRC_7, e, SSRC_8);
    PrintsConcat(a + b + c + d + e, x + VIDEO_TRANSPORT + VIDEO_CODEC_LINES + SSRC_7 + SSRC_8, f, SSRC_9);
    assert a + [] == a;
    assert VideoItems(s, OPTIONS) == a + b + c + d + e + f;
  }

  // ---------------------------------------------------------------- the whole text

  const HEAD_LINES: seq<string> :=
    ["v=0", "o=- 0 0 IN IP4 127.0.0.1", "s=Orbit", "t=0 0", "a=group:BUNDLE audio video", "a=msid-semantic: WMS ms"]

  const AUDIO_LINES: seq<string> :=
    ["m=audio 1 UDP/TLS/RTP/SAVPF 111 0", "c=IN IP4 0.0.0.0", "a=rtcp:1 IN IP4 0.0.0.0"]
    + AUDIO_TRANSPORT + AUDIO_CODEC_LINES + ["a=ptime:50", "a=maxptime:60"] + SSRC_44444 + ["a=rtcp-fb:111 nack"]

  const VIDEO_LINES: seq<string> :=
    ["m=video 1 UDP/TLS/RTP/SAVPF 100 116", "b=AS:500", "c=IN IP4 0.0.0.0", "a=rtcp:1 IN IP4 0.0.0.0"]
    + VIDEO_TRANSPORT + VIDEO_CODEC_LINES + SSRC_7 + SSRC_8 + SSRC_9

  lemma PrintedText(items: seq<Item>, lines: seq<string>)
    requires Prints(items, lines)
    ensures Text(items) == Unlines(lines)
  {
    hide Render, Unlines;
    assert Rendered(items) == lines;
  }

  /** The text of the sample is these lines. */
  lemma SampleText()
    ensures Text(Items(Sample(), OPTIONS)) == Unlines(HEAD_LINES + AUDIO_LINES + VIDEO_LINES)
  {
    hide Prints, HeadItems, AudioItems, VideoItems, Text, Unlines;
    var s := Sample();
    HeadPrinted();
    AudioPrinted();
    VideoPrinted();
    PrintsConcat(HeadItems(s, OPTIONS), HEAD_LINES, AudioItems(s, OPTIONS), AUDIO_LINES);
    PrintsConcat(HeadItems(s, OPTIONS) + AudioItems(s, OPTIONS), HEAD_LINES + AUDIO_LINES, VideoItems(s, OPTIONS), VIDEO_LINES);
    PrintedText(Items(s, OPTIONS), HEAD_LINES + AUDIO_LINES + VIDEO_LINES);
  }

  // ---------------------------------------------------------------- without the options

  const BARE_OPTIONS := Options("ms", false, false)

  /** No bundle, no flag, one video codec, and no credentials for audio. */
  function Bare(): Sdp {
    Sdp(Session(false, [], false, false, "", "", AVPF), Side(true, 0, SENDONLY, "", "", 7, 0),
        Side(true, 1, SENDRECV, "uv", "pv", 0, 1), Payloads([RED], map[], map[]), [], [], VideoOnly(0, [], 0, 500, 120))
  }

  const BARE_AUDIO: seq<string> :=
    ["m=audio 1 UDP/TLS/RTP/AVPF ", "c=IN IP4 0.0.0.0", "a=ice-ufrag:uv", "a=ice-pwd:pv", "a=sendonly", "a=ptime:50",
     "a=maxptime:60"]
  const BARE_SSRC: seq<string> := [
    "a=ssrc:7 cname:o/i14u9pJrxRKAsu", "a=ssrc:7 msid:ms a0", "a=ssrc:7 mslabel:ms", "a=ssrc:7 label:msa0"]
  const BARE_VIDEO: seq<string> :=
    ["m=video 1 UDP/TLS/RTP/AVPF 116", "b=AS:500", "c=IN IP4 0.0.0.0", "a=ice-ufrag:uv", "a=ice-pwd:pv", "a=sendrecv",
     "a=rtpmap:116 red/90000"]

  lemma BareParts()
    ensures AudioTypes([RED], 1) == "" && VideoTypes([RED], 1, 1) == Dec(116)
    ensures PayloadItems([RED], AUDIO, 120, BARE_OPTIONS, 1) == []
    ensures PayloadItems([RED], VIDEO, 120, BARE_OPTIONS, 1) == [Rtpmap(116, "red", 90000, 1)]
  {
    hide Dec;
    assert Count([RED], VIDEO, 0) == 0 && AudioTypes([RED], 0) == VideoTypes([RED], 1, 0) == "";
    assert PayloadItems([RED], AUDIO, 120, BARE_OPTIONS, 0) == PayloadItems([RED], VIDEO, 120, BARE_OPTIONS, 0) == [];
    assert FmtpItems(116, [], 0) == [] && FeedbackItems(116, [], 0) == [];
  }

  lemma BareTransport(user: string, password: string, d: Direction, media: MediaType)
    ensures TransportItems(Bare(), user, password, d, media) == [Ufrag(user), Pwd(password), DirectionLine(d)]
  {}

  lemma BareAudioItems()
    ensures
      AudioItems(Bare(), BARE_OPTIONS)
      == [MLine(AUDIO, " 1 UDP/TLS/RTP/AVPF "), CONNECTION, Ufrag("uv"), Pwd("pv"), DirectionLine(SENDONLY),
          Plain("a=ptime:50"), Plain("a=maxptime:60")] + SsrcItems(7, "o/i14u9pJrxRKAsu", "ms", "a0")
  {
    hide TransportItems, PayloadItems, AudioTypes, SsrcItems;
    BareParts();
    BareTransport("uv", "pv", SENDONLY, AUDIO);
    assert " 1 UDP/TLS/RTP/" + "AVPF " + "" == " 1 UDP/TLS/RTP/AVPF ";
    assert CandidateItems([], AUDIO, false, 0) == [];
    assert AudioHead(Bare()) == [MLine(AUDIO, " 1 UDP/TLS/RTP/AVPF "), CONNECTION];
  }

  lemma BareVideoItems()
    ensures
      VideoItems(Bare(), BARE_OPTIONS)
      == [MLine(VIDEO, " 1 UDP/TLS/RTP/AVPF 116"), Bandwidth(500), CONNECTION, Ufrag("uv"), Pwd("pv"),
          DirectionLine(SENDRECV), Rtpmap(116, "red", 90000, 1)]
  {
    hide TransportItems, PayloadItems, VideoTypes, Dec;
    BareParts();
    SmallNumbers();
    BareTransport("uv", "pv", SENDRECV, VIDEO);
    assert " 1 UDP/TLS/RTP/" + "AVPF " + "116" == " 1 UDP/TLS/RTP/AVPF 116";
    assert CandidateItems([], VIDEO, false, 0) == [] && ExtendedItems([], "ms", 0) == [];
    assert VideoHead(Bare()) == [MLine(VIDEO, " 1 UDP/TLS/RTP/AVPF 116"), Bandwidth(500), CONNECTION];
  }

  lemma BareAudioPrinted()
    ensures Prints(AudioItems(Bare(), BARE_OPTIONS), BARE_AUDIO + BARE_SSRC)
  {
    hide AudioItems, SsrcItems, Dec;
    BareAudioItems();
    SmallNumbers();
    SsrcLines(7, "a=ssrc:7 ", "o/i14u9pJrxRKAsu", "a0", BARE_SSRC);
    hide Prints;
    var head: seq<Item> :=
      [MLine(AUDIO, " 1 UDP/TLS/RTP/AVPF "), CONNECTION, Ufrag("uv"), Pwd("pv"), DirectionLine(SENDONLY),
       Plain("a=ptime:50"), Plain("a=maxptime:60")];
    BareAudioHead(head);
    PrintsConcat(head, BARE_AUDIO, SsrcItems(7, "o/i14u9pJrxRKAsu", "ms", "a0"), BARE_SSRC);
  }

  lemma BareAudioHead(head: seq<Item>)
    requires
      head == [MLine(AUDIO, " 1 UDP/TLS/RTP/AVPF "), CONNECTION, Ufrag("uv"), Pwd("pv"), DirectionLine(SENDONLY),
               Plain("a=ptime:50"), Plain("a=maxptime:60")]
    ensures Prints(head, BARE_AUDIO)
  {
    BareLines();
    hide Render;
  }

  lemma BareMediaLines()
    ensures Render(MLine(AUDIO, " 1 UDP/TLS/RTP/AVPF ")) == "m=audio 1 UDP/TLS/RTP/AVPF "
    ensures Render(MLine(VIDEO, " 1 UDP/TLS/RTP/AVPF 116")) == "m=video 1 UDP/TLS/RTP/AVPF 116"
  {
    hide Render;
    MediaLine(AUDIO, " 1 UDP/TLS/RTP/AVPF ", "m=audio 1 UDP/TLS/RTP/AVPF ");
    MediaLine(VIDEO, " 1 UDP/TLS/RTP/AVPF 116", "m=video 1 UDP/TLS/RTP/AVPF 116");
  }

  lemma PlainLines()
    ensures Render(Plain("a=ptime:50")) == "a=ptime:50" && Render(Plain("a=maxptime:60")) == "a=maxptime:60"
  {}

  lemma UserLines()
    ensures Render(Ufrag("uv")) == "a=ice-ufrag:uv" && Render(Pwd("pv")) == "a=ice-pwd:pv"
  {
    SideLines("uv", "pv", SENDRECV, "x");
    hide Render;
    assert "a=ice-ufrag:" + "uv" == "a=ice-ufrag:uv" && "a=ice-pwd:" + "pv" == "a=ice-pwd:pv";
  }

  lemma BareLines()
    ensures Render(Ufrag("uv")) == "a=ice-ufrag:uv" && Render(Pwd("pv")) == "a=ice-pwd:pv"
    ensures Render(MLine(AUDIO, " 1 UDP/TLS/RTP/AVPF ")) == "m=audio 1 UDP/TLS/RTP/AVPF "
    ensures Render(MLine(VIDEO, " 1 UDP/TLS/RTP/AVPF 116")) == "m=video 1 UDP/TLS/RTP/AVPF 116"
    ensures Render(DirectionLine(SENDONLY)) == "a=sendonly" && Render(DirectionLine(SENDRECV)) == "a=sendrecv"
    ensures Render(Plain("a=ptime:50")) == "a=ptime:50" && Render(Plain("a=maxptime:60")) == "a=maxptime:60"
    ensures Render(CONNECTION) == "c=IN IP4 0.0.0.0" && Render(Bandwidth(500)) == "b=AS:500"
  {
    hide Render;
    UserLines();
    BareMediaLines();
    SideLines("uv", "pv", SENDONLY, "x");
    SideLines("uv", "pv", SENDRECV, "x");
    PlainLines();
    ConnectionLines();
    BandwidthLine();
  }

  lemma BareVideoPrinted()
    ensures Prints(VideoItems(Bare(), BARE_OPTIONS), BARE_VIDEO)
  {
    hide VideoItems, Dec, Render;
    BareVideoItems();
    VideoLines();
    BareLines();
  }

  /** The text without the options is these lines, and no other. */
  lemma BareText()
    ensures
      Text(Items(Bare(), BARE_OPTIONS))
      == Unlines(["v=0", "o=- 0 0 IN IP4 127.0.0.1", "s=Orbit", "t=0 0"] + BARE_AUDIO + BARE_SSRC + BARE_VIDEO)
  {
    hide Prints, AudioItems, VideoItems, Text, Unlines;
    BareAudioPrinted();
    BareVideoPrinted();
    var s, o := Bare(), BARE_OPTIONS;
    var head := ["v=0", "o=- 0 0 IN IP4 127.0.0.1", "s=Orbit", "t=0 0"];
    BareHead(HeadItems(s, o), head);
    PrintsConcat(HeadItems(s, o), head, AudioItems(s, o), BARE_AUDIO + BARE_SSRC);
    assert head + (BARE_AUDIO + BARE_SSRC) == head + BARE_AUDIO + BARE_SSRC;
    PrintsConcat(HeadItems(s, o) + AudioItems(s, o), head + BARE_AUDIO + BARE_SSRC, VideoItems(s, o), BARE_VIDEO);
    PrintedText(Items(s, o), head + BARE_AUDIO + BARE_SSRC + BARE_VIDEO);
  }

  lemma BareHead(items: seq<Item>, lines: seq<string>)
    requires items == HeadItems(Bare(), BARE_OPTIONS) && lines == ["v=0", "o=- 0 0 IN IP4 127.0.0.1", "s=Orbit", "t=0 0"]
    ensures Prints(items, lines)
  {}
}
