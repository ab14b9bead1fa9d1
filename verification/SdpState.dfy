/** The state of an SdpInfo object and what processSdp does to it
    (orbit/sdp_info.cc:80-240, 728-1058; orbit/sdp_info.h:198-560), line by line. An
    access past the end of a list of pieces, which C++ leaves undefined, is None. */
module SdpState {
  import opened Common
  import opened SdpText
  import opened Candidates

  datatype Direction = SENDRECV | SENDONLY | RECVONLY
  datatype Profile = AVPF | SAVPF
  datatype Encoding = VP8 | VP9 | H264

  datatype BundleTag = BundleTag(id: string, mediaType: MediaType)

  datatype Crypto = Crypto(tag: nat, cipherSuite: string, keyParams: string, mediaType: MediaType)

  /** formatParameters is the std::map in the order of its iteration. */
  datatype RtpMap = RtpMap(
    payloadType: nat, encodingName: string, clockRate: nat, mediaType: MediaType, channels: nat,
    feedbackTypes: seq<string>, formatParameters: seq<(string, string)>)

  /** The fields that belong to no medium. */
  datatype Session = Session(
    isBundle: bool, bundleTags: seq<BundleTag>, isRtcpMux: bool, isFingerprint: bool, fingerprint: string,
    setup: string, profile: Profile)

  /** The fields the class has once for audio and once for video. */
  datatype Side = Side(
    has: bool, mLine: int, direction: Direction, username: string, password: string, ssrc: nat, codecs: int)

  datatype Payloads = Payloads(list: seq<RtpMap>, inOut: map<int, int>, outIn: map<int, int>)

  /** The fields that only video has. */
  datatype VideoOnly = VideoOnly(
    rtxSsrc: nat, extendedSsrc: seq<nat>, bandwidth: nat, targetBandwidth: nat, minBitrate: nat)

  datatype Sdp = Sdp(
    session: Session, audio: Side, video: Side, payloads: Payloads, candidates: seq<Candidate>,
    cryptos: seq<Crypto>, extra: VideoOnly)

  function NewSide(direction: Direction): Side {
    Side(false, -1, direction, "", "", 0, 0)
  }

  /** A new SdpInfo. Its constructor leaves the two directions unset. */
  function NewSdp(audioDirection: Direction, videoDirection: Direction): Sdp {
    Sdp(Session(false, [], false, false, "", "", SAVPF), NewSide(audioDirection), NewSide(videoDirection),
        Payloads([], map[], map[]), [], [], VideoOnly(0, [], 0, 250, 120))
  }

  // ---------------------------------------------------------------- the codec table

  function Codec(payloadType: nat, name: string, clock: nat, media: MediaType, channels: nat,
                 parameters: seq<(string, string)>): RtpMap {
    RtpMap(payloadType, name, clock, media, channels, [], parameters)
  }

  function VideoEntries(encoding: Encoding, redFec: bool): seq<RtpMap> {
    [match encoding
     case H264 => Codec(107, "H264", 90000, VIDEO, 1, [])
     case VP9 => Codec(101, "VP9", 90000, VIDEO, 1, [])
     case VP8 => Codec(100, "VP8", 90000, VIDEO, 1, [])]
    + if redFec then [Codec(116, "red", 90000, VIDEO, 1, []), Codec(117, "ulpfec", 90000, VIDEO, 1, [])] else []
  }

  function AudioEntries(): seq<RtpMap> {
    [Codec(111, "opus", 48000, AUDIO, 2, [("useinbandfec", "1")]),
     Codec(103, "ISAC", 16000, AUDIO, 1, []),
     Codec(104, "ISAC", 32000, AUDIO, 1, []),
     Codec(0, "PCMU", 8000, AUDIO, 1, []),
     Codec(13, "CN", 8000, AUDIO, 1, []),
     Codec(105, "CN", 16000, AUDIO, 1, []),
     Codec(106, "CN", 32000, AUDIO, 1, []),
     Codec(107, "CN", 48000, AUDIO, 1, []),
     Codec(126, "telephone-event", 8000, AUDIO, 1, [])]
  }

  /** internalPayloadVector_ */
  function InternalTable(encoding: Encoding, redFec: bool): seq<RtpMap> {
    VideoEntries(encoding, redFec) + AudioEntries()
  }

  /** The codec being built from an rtpmap line and the payload type maps. */
  datatype Match = Match(codec: RtpMap, found: bool, inOut: map<int, int>, outIn: map<int, int>)

  /** An unsigned int stored into an int. */
  function AsInt(n: nat): int {
    if n < INT then n else n - UINT
  }

  predicate SameCodec(a: RtpMap, b: RtpMap) {
    a.encodingName == b.encodingName && a.clockRate == b.clockRate
  }

  function Assign(m: Match, entry: RtpMap, pt: nat): Match {
    Match(m.codec.(channels := entry.channels, payloadType := entry.payloadType), true,
          m.inOut[entry.payloadType := AsInt(pt)], m.outIn[AsInt(pt) := entry.payloadType])
  }

  /** What the search through the first n entries of the table leaves. */
  function Matched(table: seq<RtpMap>, n: nat, m: Match, pt: nat): (r: Match)
    requires n <= |table|
    ensures SameCodec(r.codec, m.codec)
  {
    if n == 0 then m else
      var r := Matched(table, n - 1, m, pt);
      if SameCodec(table[n - 1], r.codec) then Assign(r, table[n - 1], pt) else r
  }

  // ---------------------------------------------------------------- std::map of strings

  /** formatParameters[key] = value */
  function Insert(m: seq<(string, string)>, key: string, value: string): seq<(string, string)> {
    if m == [] then [(key, value)]
    else if m[0].0 == key then [(key, value)] + m[1..]
    else if Less(key, m[0].0) then [(key, value)] + m
    else [m[0]] + Insert(m[1..], key, value)
  }

  // ---------------------------------------------------------------- loops over the lists

  function SetMedia(tags: seq<BundleTag>, id: string, media: MediaType): seq<BundleTag> {
    seq(|tags|, k requires 0 <= k < |tags| => if tags[k].id == id then tags[k].(mediaType := media) else tags[k])
  }

  function SaveFormat(payloads: seq<RtpMap>, pt: nat, key: string, value: string): seq<RtpMap> {
    seq(|payloads|, k requires 0 <= k < |payloads| =>
      if payloads[k].payloadType != pt then payloads[k]
      else payloads[k].(formatParameters := Insert(payloads[k].formatParameters, key, value)))
  }

  function SaveFeedback(payloads: seq<RtpMap>, pt: nat, feedback: string): seq<RtpMap> {
    seq(|payloads|, k requires 0 <= k < |payloads| =>
      if payloads[k].payloadType != pt then payloads[k]
      else payloads[k].(feedbackTypes := payloads[k].feedbackTypes + [feedback]))
  }

  function Credentials(c: Candidate, s: Sdp): Candidate {
    var side := if c.mediaType == VIDEO then s.video else s.audio;
    c.(isBundle := s.session.isBundle, username := side.username, password := side.password)
  }

  function SetCredentials(candidates: seq<Candidate>, s: Sdp): seq<Candidate> {
    seq(|candidates|, k requires 0 <= k < |candidates| => Credentials(candidates[k], s))
  }

  // ---------------------------------------------------------------- one line

  /** The object and the local variables of the loop in processSdp. */
  datatype Parse = Parse(sdp: Sdp, mtype: MediaType, mline: int, feedback: seq<string>)

  /** Which tags occur in a line. */
  datatype SessionHits = SessionHits(
    rtcpMux: bool, recvOnly: bool, sendOnly: bool, sendRecv: bool, savpf: bool, fp: bool, group: bool,
    video: bool, audio: bool)
  datatype TransportHits = TransportHits(cand: bool, crypt: bool, user: bool, pass: bool, mid: bool)
  datatype CodecHits = CodecHits(
    ssrc: bool, ssrcGroup: bool, rtpmap: bool, feedback: bool, fmtp: bool, bandwidth: bool)
  datatype Hits = Hits(session: SessionHits, transport: TransportHits, codec: CodecHits)

  function Scan(line: string): Hits {
    Hits(
      SessionHits(Occurs(line, "a=rtcp-mux"), Occurs(line, "a=recvonly"), Occurs(line, "a=sendonly"),
                  Occurs(line, "a=sendrecv"), Occurs(line, "SAVPF"), Occurs(line, "a=fingerprint"),
                  Occurs(line, "a=group:"), Occurs(line, "m=video"), Occurs(line, "m=audio")),
      TransportHits(Occurs(line, "a=candidate:"), Occurs(line, "a=crypto:"), Occurs(line, "a=ice-ufrag"),
                    Occurs(line, "a=ice-pwd"), Occurs(line, "a=mid")),
      CodecHits(Occurs(line, "a=ssrc"), Occurs(line, "a=ssrc-group"), Occurs(line, "a=rtpmap:"),
                Occurs(line, "a=rtcp-fb:"), Occurs(line, "a=fmtp:"), Occurs(line, "b=AS:")))
  }

  function WithSession(p: Parse, session: Session): Parse {
    p.(sdp := p.sdp.(session := session))
  }

  /** The side of the section the parser is in; anything but audio is taken for video. */
  function SideOf(p: Parse): Side {
    if p.mtype == AUDIO then p.sdp.audio else p.sdp.video
  }

  function WithSide(p: Parse, side: Side): Parse {
    p.(sdp := if p.mtype == AUDIO then p.sdp.(audio := side) else p.sdp.(video := side))
  }

  function WithPayloads(p: Parse, payloads: Payloads): Parse {
    p.(sdp := p.sdp.(payloads := payloads))
  }

  function OnRtcpMux(p: Parse): Parse {
    WithSession(p, p.sdp.session.(isRtcpMux := true))
  }

  function OnDirection(p: Parse, recvOnly: bool, sendOnly: bool, sendRecv: bool): Parse {
    if !(recvOnly || sendOnly || sendRecv) then p
    else WithSide(p, SideOf(p).(direction := if recvOnly then RECVONLY else if sendOnly then SENDONLY else SENDRECV))
  }

  function OnSavpf(p: Parse): Parse {
    WithSession(p, p.sdp.session.(profile := SAVPF))
  }

  function OnFingerprint(p: Parse, line: string): Option<Parse> {
    var halves := Split(line, {':'}, 1);
    if |halves| < 2 then None else
      var parts := Split(halves[1], {' '}, -1);
      if |parts| < 2 then None else
        Some(WithSession(p, p.sdp.session.(fingerprint := parts[1], isFingerprint := true)))
  }

  function NewTags(ids: seq<string>): seq<BundleTag> {
    seq(|ids|, k requires 0 <= k < |ids| => BundleTag(ids[k], OTHER))
  }

  function OnGroup(p: Parse, line: string): Option<Parse> {
    var parts := Split(line, {':', ' ', '\r', '\n'}, 10);
    if |parts| < 2 then None else
      Some(WithSession(p, p.sdp.session.(
        isBundle := p.sdp.session.isBundle || parts[1] == "BUNDLE",
        bundleTags := p.sdp.session.bundleTags + NewTags(parts[2..]))))
  }

  function OnVideo(p: Parse): Parse {
    Parse(p.sdp.(video := p.sdp.video.(mLine := p.mline + 1, has := true)), VIDEO, p.mline + 1, p.feedback)
  }

  function OnAudio(p: Parse): Parse {
    Parse(p.sdp.(audio := p.sdp.audio.(mLine := p.mline + 1, has := true)), AUDIO, p.mline + 1, p.feedback)
  }

  function OnCandidate(p: Parse, line: string): Option<Parse> {
    match FromLine(line, p.mtype)
    case OutOfRange => None
    case Ignored => Some(p)
    case Added(c) => Some(p.(sdp := p.sdp.(candidates := p.sdp.candidates + [c])))
  }

  function OnCrypto(p: Parse, line: string): Option<Parse> {
    var pieces := Split(line, {' ', ':'}, -1);
    if |pieces| < 5 then None else
      Some(p.(sdp := p.sdp.(cryptos := p.sdp.cryptos + [Crypto(0, pieces[2], pieces[4], p.mtype)])))
  }

  /** The text after the first colon, cut at a carriage return. */
  function ValueOf(line: string): Option<seq<string>> {
    var halves := Split(line, {':'}, 1);
    if |halves| < 2 then None else Some(Split(halves[1], {'\r'}, 1))
  }

  function OnUser(p: Parse, line: string): Option<Parse> {
    var parts :- ValueOf(line);
    Some(if parts == [] then p else WithSide(p, SideOf(p).(username := parts[0])))
  }

  function OnPass(p: Parse, line: string): Option<Parse> {
    var parts :- ValueOf(line);
    Some(if parts == [] then p else WithSide(p, SideOf(p).(password := parts[0])))
  }

  /** With more than 255 tags the 8-bit loop counter never gets past them. */
  function OnMid(p: Parse, line: string): Option<Parse> {
    var tags := p.sdp.session.bundleTags;
    var parts := Split(line, {':', ' ', '\r', '\n'}, 4);
    if |parts| < 2 then Some(p)
    else if |tags| > 255 then None
    else Some(WithSession(p, p.sdp.session.(bundleTags := SetMedia(tags, parts[1], p.mtype))))
  }

  function OnSsrc(p: Parse, line: string): Option<Parse> {
    var parts := Split(line, {' ', ':'}, 2);
    if p.mtype == OTHER || SideOf(p).ssrc != 0 then Some(p)
    else if |parts| < 2 then None
    else Some(WithSide(p, SideOf(p).(ssrc := ToUint(parts[1]))))
  }

  function OnSsrcGroup(p: Parse, line: string): Parse {
    var parts := Split(line, {' ', ':'}, 10);
    if p.mtype != VIDEO || |parts| < 4 then p
    else p.(sdp := p.sdp.(extra := p.sdp.extra.(rtxSsrc := ToUint(parts[3]))))
  }

  /** One more codec of the section; anything but video is counted as audio. */
  function CountCodec(s: Sdp, media: MediaType): Sdp {
    if media == VIDEO then s.(video := s.video.(codecs := s.video.codecs + 1))
    else s.(audio := s.audio.(codecs := s.audio.codecs + 1))
  }

  /** An rtpmap line that names the codec. */
  function AddCodec(p: Parse, table: seq<RtpMap>, pt: nat, name: string, clock: nat): Parse {
    var own := p.sdp.payloads;
    var m := Matched(table, |table|, Match(Codec(pt, name, clock, p.mtype, 0, []), false, own.inOut, own.outIn), pt);
    if !m.found then p
    else p.(sdp := CountCodec(p.sdp, p.mtype).(payloads := Payloads(own.list + [m.codec], m.inOut, m.outIn)))
  }

  function OnRtpmap(p: Parse, table: seq<RtpMap>, line: string): Option<Parse> {
    var parts := Split(line, {' ', ':', '/', '\n'}, 4);
    if |parts| < 4 then None else Some(AddCodec(p, table, ToUint(parts[1]), parts[2], ToUint(parts[3])))
  }

  function OnFeedback(p: Parse, line: string): Parse {
    p.(feedback := p.feedback + [line])
  }

  function OnFmtp(p: Parse, line: string): Parse {
    var parts := Split(line, {' ', ':', '='}, 4);
    if |parts| < 4 then p else
      var key := if |parts| == 4 then "none" else parts[3];
      var value := if |parts| == 4 then parts[3] else parts[4];
      WithPayloads(p, p.sdp.payloads.(list := SaveFormat(p.sdp.payloads.list, ToUint(parts[2]), key, value)))
  }

  function OnBandwidth(p: Parse, line: string): Parse {
    var parts := Split(line, {':'}, 2);
    if p.mtype != VIDEO || |parts| < 2 then p
    else p.(sdp := p.sdp.(extra := p.sdp.extra.(bandwidth := ToUint(parts[1]))))
  }

  function HandleSession(p: Parse, line: string, h: SessionHits): Option<Parse> {
    var p := if h.rtcpMux then OnRtcpMux(p) else p;
    var p := OnDirection(p, h.recvOnly, h.sendOnly, h.sendRecv);
    var p := if h.savpf then OnSavpf(p) else p;
    var p :- if h.fp then OnFingerprint(p, line) else Some(p);
    var p :- if h.group then OnGroup(p, line) else Some(p);
    var p := if h.video then OnVideo(p) else p;
    Some(if h.audio then OnAudio(p) else p)
  }

  function HandleTransport(p: Parse, line: string, h: TransportHits): Option<Parse> {
    var p :- if h.cand then OnCandidate(p, line) else Some(p);
    var p :- if h.crypt then OnCrypto(p, line) else Some(p);
    var p :- if h.user then OnUser(p, line) else Some(p);
    var p :- if h.pass then OnPass(p, line) else Some(p);
    if h.mid then OnMid(p, line) else Some(p)
  }

  function HandleCodec(p: Parse, table: seq<RtpMap>, line: string, h: CodecHits): Option<Parse> {
    var p :- if h.ssrc then OnSsrc(p, line) else Some(p);
    var p := if h.ssrcGroup then OnSsrcGroup(p, line) else p;
    var p :- if h.rtpmap then OnRtpmap(p, table, line) else Some(p);
    var p := if h.feedback then OnFeedback(p, line) else p;
    var p := if h.fmtp then OnFmtp(p, line) else p;
    Some(if h.bandwidth then OnBandwidth(p, line) else p)
  }

  /** The body of the getline loop. */
  function HandleLine(p: Parse, table: seq<RtpMap>, line: string, h: Hits): Option<Parse> {
    var p :- HandleSession(p, line, h.session);
    var p :- HandleTransport(p, line, h.transport);
    HandleCodec(p, table, line, h.codec)
  }

  function ProcessLine(p: Parse, table: seq<RtpMap>, line: string): Option<Parse> {
    HandleLine(p, table, line, Scan(line))
  }

  /** The getline loop over the first n lines. */
  function ProcessLines(p: Parse, table: seq<RtpMap>, lines: seq<string>, n: nat): Option<Parse>
    requires n <= |lines|
  {
    if n == 0 then Some(p) else
      var q :- ProcessLines(p, table, lines, n - 1);
      ProcessLine(q, table, lines[n - 1])
  }

  // ---------------------------------------------------------------- after the lines

  datatype Outcome = Undefined | Done(ok: bool, sdp: Sdp)

  function Share(side: Side, other: Side): Side {
    side.(username := other.username, password := other.password)
  }

  /** The side without a user name takes the credentials of the other. */
  function ShareCredentials(s: Sdp): Sdp {
    if s.video.username == "" then s.(video := Share(s.video, s.audio))
    else if s.audio.username == "" then s.(audio := Share(s.audio, s.video))
    else s
  }

  function MapFeedback(payloads: seq<RtpMap>, feedback: seq<string>, n: nat): Option<seq<RtpMap>>
    requires n <= |feedback|
  {
    if n == 0 then Some(payloads) else
      var before :- MapFeedback(payloads, feedback, n - 1);
      var parts := Split(feedback[n - 1], {' ', ':'}, 2);
      if |parts| < 3 then None else Some(SaveFeedback(before, ToUint(parts[1]), parts[2]))
  }

  function Finish(p: Parse): Outcome {
    if p.sdp.video.username == "" && p.sdp.audio.username == "" then Done(false, p.sdp) else
      var s := ShareCredentials(p.sdp);
      match MapFeedback(s.payloads.list, p.feedback, |p.feedback|)
      case None => Undefined
      case Some(list) =>
        Done(true, s.(candidates := SetCredentials(s.candidates, s), payloads := s.payloads.(list := list)))
  }

  function MediaOf(media: string): MediaType {
    if media == "audio" then AUDIO else if media == "video" then VIDEO else OTHER
  }

  /** processSdp */
  function Process(s: Sdp, table: seq<RtpMap>, text: string, media: string): Outcome {
    var lines := Lines(text);
    match ProcessLines(Parse(s, MediaOf(media), -1, []), table, lines, |lines|)
    case None => Undefined
    case Some(p) => Finish(p)
  }
}
