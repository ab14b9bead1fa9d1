/** What getSdp prints (orbit/sdp_info.cc:302-566), as a list of lines with structure and
    the text of each line. */
module SdpPrint {
  import opened SdpText
  import opened Candidates
  import opened SdpState

  datatype Item =
    | Plain(text: string)
    | Group(ids: seq<string>)
    | MLine(media: MediaType, rest: string)
    | CandidateLine(candidate: Candidate)
    | Ufrag(value: string)
    | Pwd(value: string)
    | Fingerprint(value: string)
    | DirectionLine(direction: Direction)
    | Mid(id: string)
    | RtcpMux
    | CryptoLine(crypto: Crypto)
    | Rtpmap(pt: nat, name: string, clock: nat, channels: nat)
    | Fmtp(pt: nat, key: string, value: string)
    | Feedback(pt: nat, value: string)
    | Ssrc(ssrc: nat, attribute: string)
    | Bandwidth(kbps: nat)

  function DirectionText(d: Direction): string {
    match d
    case SENDONLY => "a=sendonly"
    case SENDRECV => "a=sendrecv"
    case RECVONLY => "a=recvonly"
  }

  function Render(item: Item): string {
    match item
    case Plain(text) => text
    case Group(ids) => "a=group:BUNDLE" + Tail(ids)
    case MLine(media, rest) => (if media == AUDIO then "m=audio" else "m=video") + rest
    case CandidateLine(c) => ToString(c)
    case Ufrag(value) => "a=ice-ufrag:" + value
    case Pwd(value) => "a=ice-pwd:" + value
    case Fingerprint(value) => "a=fingerprint:" + Spaced(["sha-256", value])
    case DirectionLine(d) => DirectionText(d)
    case Mid(id) => "a=mid:" + id
    case RtcpMux => "a=rtcp-mux"
    case CryptoLine(c) => "a=crypto:" + Spaced([Dec(c.tag), c.cipherSuite, "inline:" + c.keyParams])
    case Rtpmap(pt, name, clock, channels) =>
      "a=rtpmap:" + Dec(pt) + " " + name + "/" + Dec(clock) + (if channels > 1 then "/" + Dec(channels) else "")
    case Fmtp(pt, key, value) =>
      "a=fmtp:" + Dec(pt) + " " + (if key != "none" then key + "=" + value else value)
    case Feedback(pt, value) => "a=rtcp-fb:" + Dec(pt) + " " + value
    case Ssrc(ssrc, attribute) => "a=ssrc:" + Dec(ssrc) + " " + attribute
    case Bandwidth(kbps) => "b=AS:" + Dec(kbps)
  }

  function Rendered(items: seq<Item>): seq<string> {
    seq(|items|, k requires 0 <= k < |items| => Render(items[k]))
  }

  function Text(items: seq<Item>): string {
    Unlines(Rendered(items))
  }

  /** The random msid and the command-line flags. */
  datatype Options = Options(msid: string, audioNack: bool, setMinBitrate: bool)

  // ---------------------------------------------------------------- pieces of a section

  /** How many of the first n payloads are of a medium. */
  function Count(payloads: seq<RtpMap>, media: MediaType, n: nat): (c: nat)
    requires n <= |payloads|
    ensures c <= n
  {
    if n == 0 then 0 else Count(payloads, media, n - 1) + (if payloads[n - 1].mediaType == media then 1 else 0)
  }

  function AudioTypes(payloads: seq<RtpMap>, n: nat): string
    requires n <= |payloads|
  {
    if n == 0 then "" else
      var before := AudioTypes(payloads, n - 1);
      if payloads[n - 1].mediaType != AUDIO then before
      else before + (if Count(payloads, AUDIO, n - 1) == 0 then "" else " ") + Dec(payloads[n - 1].payloadType)
  }

  function VideoTypes(payloads: seq<RtpMap>, videoCodecs: int, n: nat): string
    requires n <= |payloads|
  {
    if n == 0 then "" else
      var before := VideoTypes(payloads, videoCodecs, n - 1);
      if payloads[n - 1].mediaType != VIDEO then before
      else before + Dec(payloads[n - 1].payloadType) + (if Count(payloads, VIDEO, n) < videoCodecs then " " else "")
  }

  predicate Listed(c: Candidate, media: MediaType, all: bool) {
    c.mediaType == media || all
  }

  function CandidateItems(candidates: seq<Candidate>, media: MediaType, all: bool, n: nat): seq<Item>
    requires n <= |candidates|
  {
    if n == 0 then [] else
      CandidateItems(candidates, media, all, n - 1)
      + (if Listed(candidates[n - 1], media, all) then [CandidateLine(candidates[n - 1])] else [])
  }

  function MidItems(tags: seq<BundleTag>, media: MediaType, n: nat): seq<Item>
    requires n <= |tags|
  {
    if n == 0 then [] else
      MidItems(tags, media, n - 1) + (if tags[n - 1].mediaType == media then [Mid(tags[n - 1].id)] else [])
  }

  function CryptoItems(cryptos: seq<Crypto>, media: MediaType, n: nat): seq<Item>
    requires n <= |cryptos|
  {
    if n == 0 then [] else
      CryptoItems(cryptos, media, n - 1) + (if cryptos[n - 1].mediaType == media then [CryptoLine(cryptos[n - 1])] else [])
  }

  function FmtpItems(pt: nat, parameters: seq<(string, string)>, n: nat): seq<Item>
    requires n <= |parameters|
  {
    if n == 0 then [] else
      FmtpItems(pt, parameters, n - 1) + [Fmtp(pt, parameters[n - 1].0, parameters[n - 1].1)]
  }

  function FeedbackItems(pt: nat, types: seq<string>, n: nat): seq<Item>
    requires n <= |types|
  {
    if n == 0 then [] else FeedbackItems(pt, types, n - 1) + [Feedback(pt, types[n - 1])]
  }

  const MIN_BITRATE := "x-google-min-bitrate"

  function CodecItems(r: RtpMap, minBitrate: nat, o: Options): seq<Item> {
    if r.mediaType == AUDIO then
      [Rtpmap(r.payloadType, r.encodingName, r.clockRate, r.channels)]
      + FmtpItems(r.payloadType, r.formatParameters, |r.formatParameters|)
    else
      [Rtpmap(r.payloadType, r.encodingName, r.clockRate, 1)]
      + FeedbackItems(r.payloadType, r.feedbackTypes, |r.feedbackTypes|)
      + FmtpItems(r.payloadType, r.formatParameters, |r.formatParameters|)
      + (if o.setMinBitrate then [Fmtp(r.payloadType, MIN_BITRATE, Dec(minBitrate))] else [])
  }

  function PayloadItems(payloads: seq<RtpMap>, media: MediaType, minBitrate: nat, o: Options, n: nat): seq<Item>
    requires n <= |payloads|
  {
    if n == 0 then [] else
      PayloadItems(payloads, media, minBitrate, o, n - 1)
      + (if payloads[n - 1].mediaType == media then CodecItems(payloads[n - 1], minBitrate, o) else [])
  }

  function SsrcItems(ssrc: nat, cname: string, msid: string, name: string): seq<Item> {
    [Ssrc(ssrc, "cname:" + cname), Ssrc(ssrc, "msid:" + msid + " " + name),
     Ssrc(ssrc, "mslabel:" + msid), Ssrc(ssrc, "label:" + msid + name)]
  }

  function ExtendedItems(ssrcs: seq<nat>, msid: string, n: nat): seq<Item>
    requires n <= |ssrcs|
  {
    if n == 0 then [] else
      ExtendedItems(ssrcs, msid, n - 1) + SsrcItems(ssrcs[n - 1], "o/orbit", msid, "v" + Dec(n))
  }

  // ---------------------------------------------------------------- the sections

  function TagIds(tags: seq<BundleTag>): seq<string> {
    seq(|tags|, k requires 0 <= k < |tags| => tags[k].id)
  }

  function HeadItems(s: Sdp, o: Options): seq<Item> {
    [Plain("v=0"), Plain("o=- 0 0 IN IP4 127.0.0.1"), Plain("s=Orbit"), Plain("t=0 0")]
    + if !s.session.isBundle then [] else
        [Group(TagIds(s.session.bundleTags)),
         Plain("a=msid-semantic: WMS " + o.msid)]
  }

  function ProfileText(p: Profile): string {
    if p == SAVPF then "SAVPF " else "AVPF "
  }

  /** The lines of both sections between the candidates and the codecs. */
  function TransportItems(s: Sdp, username: string, password: string, d: Direction, media: MediaType): seq<Item> {
    [Ufrag(username), Pwd(password)]
    + (if s.session.isFingerprint then [Fingerprint(s.session.fingerprint)] else [])
    + (if s.session.setup != "" then [Plain("a=setup:" + s.session.setup)] else [])
    + [DirectionLine(d)]
    + MidItems(s.session.bundleTags, media, |s.session.bundleTags|)
    + (if s.session.isRtcpMux then [RtcpMux] else [])
    + CryptoItems(s.cryptos, media, |s.cryptos|)
  }

  function RtcpItems(s: Sdp): seq<Item> {
    if s.session.isRtcpMux then [Plain("a=rtcp:1 IN IP4 0.0.0.0")] else []
  }

  const CONNECTION := Plain("c=IN IP4 0.0.0.0")

  function AudioUsername(s: Sdp): string {
    if s.audio.username != "" then s.audio.username else s.video.username
  }

  function AudioPassword(s: Sdp): string {
    if s.audio.username != "" then s.audio.password else s.video.password
  }

  function AudioSsrc(s: Sdp): nat {
    if s.audio.ssrc == 0 then 44444 else s.audio.ssrc
  }

  function AudioHead(s: Sdp): seq<Item> {
    [MLine(AUDIO, " 1 UDP/TLS/RTP/" + ProfileText(s.session.profile) + AudioTypes(s.payloads.list, |s.payloads.list|)),
     CONNECTION]
    + RtcpItems(s)
  }

  function NackItems(o: Options): seq<Item> {
    if o.audioNack then [Feedback(111, "nack")] else []
  }

  function AudioItems(s: Sdp, o: Options): seq<Item> {
    AudioHead(s)
    + CandidateItems(s.candidates, AUDIO, s.session.isBundle, |s.candidates|)
    + TransportItems(s, AudioUsername(s), AudioPassword(s), s.audio.direction, AUDIO)
    + PayloadItems(s.payloads.list, AUDIO, s.extra.minBitrate, o, |s.payloads.list|)
    + [Plain("a=ptime:50"), Plain("a=maxptime:60")]
    + SsrcItems(AudioSsrc(s), "o/i14u9pJrxRKAsu", o.msid, "a0")
    + NackItems(o)
  }

  function OptionalSsrcItems(ssrc: nat, msid: string): seq<Item> {
    if ssrc != 0 then SsrcItems(ssrc, "o/orbit", msid, "v0") else []
  }

  function VideoHead(s: Sdp): seq<Item> {
    [MLine(VIDEO, " 1 UDP/TLS/RTP/" + ProfileText(s.session.profile)
                  + VideoTypes(s.payloads.list, s.video.codecs, |s.payloads.list|)),
     Bandwidth(s.extra.targetBandwidth), CONNECTION]
    + RtcpItems(s)
  }

  function VideoItems(s: Sdp, o: Options): seq<Item> {
    VideoHead(s)
    + CandidateItems(s.candidates, VIDEO, false, |s.candidates|)
    + TransportItems(s, s.video.username, s.video.password, s.video.direction, VIDEO)
    + PayloadItems(s.payloads.list, VIDEO, s.extra.minBitrate, o, |s.payloads.list|)
    + OptionalSsrcItems(s.video.ssrc, o.msid)
    + ExtendedItems(s.extra.extendedSsrc, o.msid, |s.extra.extendedSsrc|)
    + OptionalSsrcItems(s.extra.rtxSsrc, o.msid)
  }

  function Items(s: Sdp, o: Options): seq<Item> {
    HeadItems(s, o)
    + (if s.audio.has then AudioItems(s, o) else [])
    + (if s.video.has then VideoItems(s, o) else [])
  }

  lemma {:induction false} TextSnoc(items: seq<Item>, item: Item)
    ensures Text(items + [item]) == Text(items) + Render(item) + "\n"
  {
    hide Render;
    assert Rendered(items + [item]) == Rendered(items) + [Render(item)];
    UnlinesConcat(Rendered(items), [Render(item)]);
    assert [Render(item)][1..] == [];
    assert Unlines([Render(item)]) == Render(item) + "\n";
  }
}
