/** What processSdp makes of each line that getSdp prints: ProcessLine on the text of a
    line equals Effect on its structure. */
module SdpEffects {
  import opened Common
  import opened SdpText
  import opened Candidates
  import opened SdpState
  import opened SdpPrint
  import opened SdpLines

  const LINE_ENDS: set<char> := {'\n', '='}
  const WORD_ENDS: set<char> := {' ', ':', '/', '\n', '='}
  const TAG_ENDS: set<char> := {':', ' ', '\r', '\n', '='}
  const CREDENTIAL_ENDS: set<char> := {'\r', '\n', '='}
  const FINGERPRINT_ENDS: set<char> := {' ', '\n', '='}

  predicate Word(s: string, delims: set<char>) {
    s != "" && Free(s, delims)
  }

  predicate CleanCandidate(c: Candidate) {
    && Printable(c) && ColonFree(c)
    && Free(c.netProtocol, {':', '='}) && Free(c.foundation, {'='}) && Free(c.hostAddress, {'='})
    && (Related(c.hostType) ==> Free(c.rAddress, {'='}))
  }

  /** The key must not make the equals sign after it look like that of a tag. */
  predicate CleanParameter(key: string, value: string) {
    if key == "none" then Word(value, WORD_ENDS)
    else Word(key, WORD_ENDS) && key[|key| - 1] !in TAG_STARTS && Word(value, LINE_ENDS)
  }

  /** The tokens of a line are not empty and free of what delimits them. */
  predicate Clean(item: Item) {
    match item
    case Plain(text) => Untagged(text) && Free(text, {'\n'})
    case Group(ids) => Words(ids, TAG_ENDS)
    case MLine(media, rest) => media != OTHER && Free(rest, LINE_ENDS)
    case CandidateLine(c) => CleanCandidate(c)
    case Ufrag(value) => Word(value, CREDENTIAL_ENDS)
    case Pwd(value) => Word(value, CREDENTIAL_ENDS)
    case Fingerprint(value) => Word(value, FINGERPRINT_ENDS)
    case DirectionLine(_) => true
    case Mid(id) => Word(id, TAG_ENDS)
    case RtcpMux => true
    case CryptoLine(c) => Word(c.cipherSuite, WORD_ENDS - {'/'}) && Word(c.keyParams, WORD_ENDS - {'/'})
    case Rtpmap(pt, name, clock, _) => pt < UINT && Word(name, WORD_ENDS) && clock < UINT
    case Fmtp(pt, key, value) => pt < UINT && CleanParameter(key, value)
    case Feedback(pt, value) => pt < UINT && Word(value, LINE_ENDS)
    case Ssrc(ssrc, attribute) => ssrc < UINT && Word(attribute, LINE_ENDS)
    case Bandwidth(kbps) => kbps < UINT
  }

  // ---------------------------------------------------------------- clean lines are quiet

  lemma DecIsFree(n: nat, delims: set<char>)
    requires forall d :: d in delims ==> !IsDigit(d)
    ensures Dec(n) != "" && Free(Dec(n), delims)
  {
    DecIsDigits(n);
  }

  predicate QuietHead(head: string) {
    |head| >= 2 && forall k :: 0 <= k < |head| ==> head[k] != '\n' && (k >= 2 ==> head[k] != '=')
  }

  lemma MediaHeads()
    ensures QuietHead("a=group:BUNDLE") && QuietHead("m=audio") && QuietHead("m=video")
    ensures QuietHead("a=candidate:") && QuietHead("a=crypto:") && QuietHead("a=mid:")
  {}

  lemma TransportHeads()
    ensures QuietHead("a=ice-ufrag:") && QuietHead("a=ice-pwd:") && QuietHead("a=fingerprint:")
    ensures QuietHead("a=sendonly") && QuietHead("a=sendrecv") && QuietHead("a=recvonly") && QuietHead("a=rtcp-mux")
  {}

  lemma CodecHeads()
    ensures QuietHead("a=rtpmap:") && QuietHead("a=fmtp:") && QuietHead("a=rtcp-fb:")
    ensures QuietHead("a=ssrc:") && QuietHead("b=AS:")
  {}

  lemma HeadIsQuiet(item: Item)
    requires !item.Plain?
    ensures QuietHead(HeadFor(item).text)
  {
    hide QuietHead;
    MediaHeads();
    TransportHeads();
    CodecHeads();
  }

  lemma CandidateIsFree(c: Candidate)
    requires CleanCandidate(c)
    ensures Free(Spaced(WordsOf(c)), LINE_ENDS)
  {
    hide Dec, Spaced, Tail;
    WordsAreTokens(c);
    DecIsFree(c.componentId, {'='});
    DecIsFree(c.priority, {'='});
    DecIsFree(c.hostPort, {'='});
    DecIsFree(c.rPort, {'='});
    forall k | 0 <= k < |WordsOf(c)|
      ensures Free(WordsOf(c)[k], LINE_ENDS)
    {
      assert Free(WordsOf(c)[k], SPACES);
    }
    SpacedIsFree(WordsOf(c), LINE_ENDS);
  }

  lemma RestOfRtpmap(pt: nat, name: string, clock: nat, channels: nat, rest: string)
    requires Clean(Rtpmap(pt, name, clock, channels))
    requires Render(Rtpmap(pt, name, clock, channels)) == "a=rtpmap:" + rest
    ensures Free(rest, LINE_ENDS)
  {
    hide Dec;
    assert rest == Render(Rtpmap(pt, name, clock, channels))[|"a=rtpmap:"|..];
    DecIsFree(pt, LINE_ENDS);
    DecIsFree(clock, LINE_ENDS);
    DecIsFree(channels, LINE_ENDS);
  }

  lemma RestOfCodec(item: Item, rest: string)
    requires Clean(item) && OfCodec(item) && !item.Fmtp? && Render(item) == HeadFor(item).text + rest
    ensures Free(rest, LINE_ENDS)
  {
    if item.Rtpmap? {
      hide Render, Clean;
      RestOfRtpmap(item.pt, item.name, item.clock, item.channels, rest);
    } else {
      RestOfOther(item, rest);
    }
  }

  lemma RestOfOther(item: Item, rest: string)
    requires Clean(item) && OfCodec(item) && !item.Fmtp? && !item.Rtpmap? && Render(item) == HeadFor(item).text + rest
    ensures Free(rest, LINE_ENDS)
  {
    hide Dec;
    assert rest == Render(item)[|HeadFor(item).text|..];
    match item
    case Feedback(pt, value) =>
      DecIsFree(pt, LINE_ENDS);
    case Ssrc(ssrc, attribute) =>
      DecIsFree(ssrc, LINE_ENDS);
    case Bandwidth(kbps) =>
      DecIsFree(kbps, LINE_ENDS);
  }

  lemma RestIsFree(item: Item, rest: string)
    requires Clean(item) && !item.Plain? && !OfCodec(item) && !item.CandidateLine?
    requires Render(item) == HeadFor(item).text + rest
    ensures Free(rest, LINE_ENDS)
  {
    hide Dec, Spaced, Tail;
    assert rest == Render(item)[|HeadFor(item).text|..];
    match item
    case Group(ids) =>
      SpacedIsFree(ids, LINE_ENDS);
    case Fingerprint(value) =>
      SpacedIsFree(["sha-256", value], LINE_ENDS);
    case CryptoLine(c) =>
      DecIsFree(c.tag, LINE_ENDS);
      SpacedIsFree([Dec(c.tag), c.cipherSuite, "inline:" + c.keyParams], LINE_ENDS);
    case _ =>
  }

  lemma FmtpIsQuiet(pt: nat, key: string, value: string)
    requires CleanParameter(key, value)
    ensures Quiet(Render(Fmtp(pt, key, value))) && Free(Render(Fmtp(pt, key, value)), {'\n'})
  {
    hide Dec;
    DecIsFree(pt, LINE_ENDS);
  }

  lemma QuietLine(head: string, rest: string)
    requires QuietHead(head) && Free(rest, LINE_ENDS)
    ensures Quiet(head + rest) && Free(head + rest, {'\n'})
  {
    var line := head + rest;
    forall k | 0 <= k < |line|
      ensures line[k] != '\n' && (k >= 2 ==> line[k] != '=')
    {
      if k >= |head| {
        assert line[k] == rest[k - |head|];
      }
    }
  }

  lemma CleanIsQuiet(item: Item)
    requires Clean(item) && !item.Plain?
    ensures Quiet(Render(item)) && Free(Render(item), {'\n'})
  {
    hide Render, HeadFor, Quiet, QuietHead, Free, Spaced, Tail, ColonFree;
    if item.Fmtp? {
      FmtpIsQuiet(item.pt, item.key, item.value);
    } else {
      var rest := RenderHead(item);
      HeadIsQuiet(item);
      if item.CandidateLine? {
        CandidateRest(item, rest);
      } else if OfCodec(item) {
        RestOfCodec(item, rest);
      } else {
        RestIsFree(item, rest);
      }
      QuietLine(HeadFor(item).text, rest);
    }
  }

  lemma CandidateRest(item: Item, rest: string)
    requires item.CandidateLine? && CleanCandidate(item.candidate)
    requires Render(item) == HeadFor(item).text + rest
    ensures Free(rest, LINE_ENDS)
  {
    hide Spaced, WordsOf;
    CandidateIsFree(item.candidate);
    assert rest == Render(item)[|HeadFor(item).text|..];
  }

  // ---------------------------------------------------------------- effects

  /** The identifiers the limited split of a group line yields. */
  function GroupPieces(ids: seq<string>): seq<string> {
    Split(Spaced(ids), TAG_ENDS - {'='}, 8)
  }

  function Effect(p: Parse, table: seq<RtpMap>, item: Item): Parse {
    var s := p.sdp;
    match item
    case Plain(_) => p
    case Group(ids) =>
      WithSession(p, s.session.(isBundle := true, bundleTags := s.session.bundleTags + NewTags(GroupPieces(ids))))
    case MLine(media, _) => if media == AUDIO then OnAudio(p) else OnVideo(p)
    case CandidateLine(c) =>
      if Udp(c.netProtocol) then p.(sdp := s.(candidates := s.candidates + [Restored(c, Blank(p.mtype))])) else p
    case Ufrag(value) => WithSide(p, SideOf(p).(username := value))
    case Pwd(value) => WithSide(p, SideOf(p).(password := value))
    case Fingerprint(value) => WithSession(p, s.session.(fingerprint := value, isFingerprint := true))
    case DirectionLine(d) => WithSide(p, SideOf(p).(direction := d))
    case Mid(id) => WithSession(p, s.session.(bundleTags := SetMedia(s.session.bundleTags, id, p.mtype)))
    case RtcpMux => WithSession(p, s.session.(isRtcpMux := true))
    case CryptoLine(c) => p.(sdp := s.(cryptos := s.cryptos + [Crypto(0, c.cipherSuite, c.keyParams, p.mtype)]))
    case Rtpmap(pt, name, clock, _) => AddCodec(p, table, pt, name, clock)
    case Fmtp(pt, key, value) => WithPayloads(p, s.payloads.(list := SaveFormat(s.payloads.list, pt, key, value)))
    case Feedback(_, _) => p.(feedback := p.feedback + [Render(item)])
    case Ssrc(ssrc, _) =>
      if p.mtype != OTHER && SideOf(p).ssrc == 0 then WithSide(p, SideOf(p).(ssrc := ssrc)) else p
    case Bandwidth(kbps) => if p.mtype == VIDEO then p.(sdp := s.(extra := s.extra.(bandwidth := kbps))) else p
  }

  /** The handler of the branch meant for a line. */
  function Branch(p: Parse, table: seq<RtpMap>, item: Item, line: string): Option<Parse> {
    match item
    case Plain(_) => Some(p)
    case Group(_) => OnGroup(p, line)
    case MLine(media, _) => Some(if media == AUDIO then OnAudio(p) else OnVideo(p))
    case CandidateLine(_) => OnCandidate(p, line)
    case Ufrag(_) => OnUser(p, line)
    case Pwd(_) => OnPass(p, line)
    case Fingerprint(_) => OnFingerprint(p, line)
    case DirectionLine(d) => Some(OnDirection(p, d == RECVONLY, d == SENDONLY, d == SENDRECV))
    case Mid(_) => OnMid(p, line)
    case RtcpMux => Some(OnRtcpMux(p))
    case CryptoLine(_) => OnCrypto(p, line)
    case Rtpmap(_, _, _, _) => OnRtpmap(p, table, line)
    case Fmtp(_, _, _) => Some(OnFmtp(p, line))
    case Feedback(_, _) => Some(OnFeedback(p, line))
    case Ssrc(_, _) => OnSsrc(p, line)
    case Bandwidth(_) => Some(OnBandwidth(p, line))
  }

  lemma SavpfKeeps(p: Parse, d: Direction)
    requires p.sdp.session.profile == SAVPF
    ensures OnSavpf(p) == p
    ensures OnDirection(p, false, false, false) == p
    ensures var q := OnDirection(p, d == RECVONLY, d == SENDONLY, d == SENDRECV); OnSavpf(q) == q
    ensures OnSavpf(OnRtcpMux(p)) == OnRtcpMux(p)
    ensures OnDirection(OnRtcpMux(p), false, false, false) == OnRtcpMux(p)
  {}

  lemma SessionDispatch(p: Parse, line: string, h: SessionHits, d: Direction)
    requires p.sdp.session.profile == SAVPF
    ensures
      var r := HandleSession(p, line, h);
      var one := h.(savpf := false);
      && (one == NO_SESSION ==> r == Some(p))
      && (one == NO_SESSION.(rtcpMux := true) ==> r == Some(OnRtcpMux(p)))
      && (one == NO_SESSION.(recvOnly := d == RECVONLY, sendOnly := d == SENDONLY, sendRecv := d == SENDRECV)
          ==> r == Some(OnDirection(p, d == RECVONLY, d == SENDONLY, d == SENDRECV)))
      && (one == NO_SESSION.(fp := true) ==> r == OnFingerprint(p, line))
      && (one == NO_SESSION.(group := true) ==> r == OnGroup(p, line))
      && (one == NO_SESSION.(video := true) ==> r == Some(OnVideo(p)))
      && (one == NO_SESSION.(audio := true) ==> r == Some(OnAudio(p)))
  {
    hide OnRtcpMux, OnDirection, OnSavpf, OnGroup, OnFingerprint, OnVideo, OnAudio;
    SavpfKeeps(p, d);
  }

  lemma SessionIdle(p: Parse, line: string, h: SessionHits)
    requires p.sdp.session.profile == SAVPF && h.(savpf := false) == NO_SESSION
    ensures HandleSession(p, line, h) == Some(p)
  {
    hide HandleSession;
    SessionDispatch(p, line, h, SENDRECV);
  }

  lemma TransportIdle(p: Parse, line: string)
    ensures HandleTransport(p, line, NO_TRANSPORT) == Some(p)
  {}

  lemma TransportDispatch(p: Parse, line: string, h: TransportHits)
    ensures
      var r := HandleTransport(p, line, h);
      && (h == NO_TRANSPORT ==> r == Some(p))
      && (h == NO_TRANSPORT.(cand := true) ==> r == OnCandidate(p, line))
      && (h == NO_TRANSPORT.(crypt := true) ==> r == OnCrypto(p, line))
      && (h == NO_TRANSPORT.(user := true) ==> r == OnUser(p, line))
      && (h == NO_TRANSPORT.(pass := true) ==> r == OnPass(p, line))
      && (h == NO_TRANSPORT.(mid := true) ==> r == OnMid(p, line))
  {
    hide OnCandidate, OnUser, OnPass, OnMid, OnCrypto;
  }

  lemma CodecDispatch(p: Parse, table: seq<RtpMap>, line: string, h: CodecHits)
    ensures
      var r := HandleCodec(p, table, line, h);
      && (h == NO_CODEC ==> r == Some(p))
      && (h == NO_CODEC.(ssrc := true) ==> r == OnSsrc(p, line))
      && (h == NO_CODEC.(rtpmap := true) ==> r == OnRtpmap(p, table, line))
      && (h == NO_CODEC.(feedback := true) ==> r == Some(OnFeedback(p, line)))
      && (h == NO_CODEC.(fmtp := true) ==> r == Some(OnFmtp(p, line)))
      && (h == NO_CODEC.(bandwidth := true) ==> r == Some(OnBandwidth(p, line)))
  {
    hide OnRtpmap, OnFmtp, OnSsrc, OnSsrcGroup, OnBandwidth, OnFeedback;
  }

  predicate InTransport(item: Item) {
    item.CandidateLine? || item.CryptoLine? || item.Ufrag? || item.Pwd? || item.Mid?
  }

  lemma DispatchSession(p: Parse, table: seq<RtpMap>, item: Item, line: string, h: Hits)
    requires p.sdp.session.profile == SAVPF && !InTransport(item) && !OfCodec(item)
    requires Hits(h.session.(savpf := false), h.transport, h.codec) == HitsOf(item)
    ensures HandleLine(p, table, line, h) == Branch(p, table, item, line)
  {
    hide HandleSession, HandleTransport, HandleCodec, OnRtcpMux, OnDirection, OnSavpf, OnGroup, OnFingerprint,
      OnVideo, OnAudio, OnCandidate, OnUser, OnPass, OnMid, OnCrypto, OnRtpmap, OnFmtp, OnSsrc, OnSsrcGroup,
      OnBandwidth, OnFeedback;
    SessionDispatch(p, line, h.session, if item.DirectionLine? then item.direction else SENDRECV);
    var q := HandleSession(p, line, h.session);
    if q.Some? {
      TransportDispatch(q.value, line, h.transport);
      CodecDispatch(q.value, table, line, h.codec);
    }
  }

  lemma DispatchTransport(p: Parse, table: seq<RtpMap>, item: Item, line: string, h: Hits)
    requires p.sdp.session.profile == SAVPF && InTransport(item)
    requires Hits(h.session.(savpf := false), h.transport, h.codec) == HitsOf(item)
    ensures HandleLine(p, table, line, h) == Branch(p, table, item, line)
  {
    hide HandleSession, HandleTransport, HandleCodec, OnRtcpMux, OnDirection, OnSavpf, OnGroup, OnFingerprint,
      OnVideo, OnAudio, OnCandidate, OnUser, OnPass, OnMid, OnCrypto, OnRtpmap, OnFmtp, OnSsrc, OnSsrcGroup,
      OnBandwidth, OnFeedback;
    SessionIdle(p, line, h.session);
    TransportDispatch(p, line, h.transport);
    var q := HandleTransport(p, line, h.transport);
    if q.Some? {
      CodecDispatch(q.value, table, line, h.codec);
    }
  }

  lemma DispatchCodec(p: Parse, table: seq<RtpMap>, item: Item, line: string, h: Hits)
    requires p.sdp.session.profile == SAVPF && OfCodec(item)
    requires Hits(h.session.(savpf := false), h.transport, h.codec) == HitsOf(item)
    ensures HandleLine(p, table, line, h) == Branch(p, table, item, line)
  {
    hide HandleSession, HandleTransport, HandleCodec, OnRtcpMux, OnDirection, OnSavpf, OnGroup, OnFingerprint,
      OnVideo, OnAudio, OnCandidate, OnUser, OnPass, OnMid, OnCrypto, OnRtpmap, OnFmtp, OnSsrc, OnSsrcGroup,
      OnBandwidth, OnFeedback;
    SessionIdle(p, line, h.session);
    TransportIdle(p, line);
    CodecDispatch(p, table, line, h.codec);
  }

  /** With one hit, one handler runs; the profile is the one it starts as anyway. */
  lemma Dispatch(p: Parse, table: seq<RtpMap>, item: Item, line: string)
    requires p.sdp.session.profile == SAVPF && Hit(line, HitsOf(item))
    ensures ProcessLine(p, table, line) == Branch(p, table, item, line)
  {
    hide Scan, HandleLine, Branch, HitsOf;
    if InTransport(item) {
      DispatchTransport(p, table, item, line, Scan(line));
    } else if OfCodec(item) {
      DispatchCodec(p, table, item, line, Scan(line));
    } else {
      DispatchSession(p, table, item, line, Scan(line));
    }
  }

  // ---------------------------------------------------------------- the handlers on printed lines

  /** The value of a line after its only colon cut. */
  lemma CutAtColon(tag: string, value: string)
    requires Free(tag, {':'}) && value != ""
    ensures Split(tag + ":" + value, {':'}, 1) == [tag, value]
  {
    hide Split;
    SplitCut(tag, ':', value, {':'}, 1);
    SplitLast(value, {':'}, 0);
    assert tag + ":" + value == tag + [':'] + value;
  }

  lemma ValueOfLine(tag: string, value: string)
    requires Free(tag, {':'}) && Word(value, CREDENTIAL_ENDS)
    ensures ValueOf(tag + ":" + value) == Some([value])
  {
    hide Split;
    CutAtColon(tag, value);
    SplitLast(value, {'\r'}, 1);
  }

  lemma UfragEffect(p: Parse, table: seq<RtpMap>, value: string)
    requires Clean(Ufrag(value))
    ensures OnUser(p, Render(Ufrag(value))) == Some(Effect(p, table, Ufrag(value)))
  {
    hide ValueOf;
    ValueOfLine("a=ice-ufrag", value);
    assert "a=ice-ufrag" + ":" == "a=ice-ufrag:";
  }

  lemma PwdEffect(p: Parse, table: seq<RtpMap>, value: string)
    requires Clean(Pwd(value))
    ensures OnPass(p, Render(Pwd(value))) == Some(Effect(p, table, Pwd(value)))
  {
    hide ValueOf;
    ValueOfLine("a=ice-pwd", value);
    assert "a=ice-pwd" + ":" == "a=ice-pwd:";
  }

  lemma FingerprintEffect(p: Parse, table: seq<RtpMap>, value: string)
    requires Clean(Fingerprint(value))
    ensures OnFingerprint(p, Render(Fingerprint(value))) == Some(Effect(p, table, Fingerprint(value)))
  {
    hide Split, Spaced;
    var words := ["sha-256", value];
    assert Spaced(words) != "" by { SpacedPair("sha-256", value); }
    CutAtColon("a=fingerprint", Spaced(words));
    assert "a=fingerprint" + ":" == "a=fingerprint:";
    SplitSpaced(words, {' '}, -1);
  }

  lemma SpacedPair(a: string, b: string)
    ensures Spaced([a, b]) == a + " " + b
  {
    assert [a, b][1..] == [b];
    assert [b][1..] == [];
    assert Spaced([b]) == b;
  }

  lemma GroupEffect(p: Parse, table: seq<RtpMap>, ids: seq<string>)
    requires Clean(Group(ids))
    ensures OnGroup(p, Render(Group(ids))) == Some(Effect(p, table, Group(ids)))
  {
    hide Split, Spaced;
    var delims := {':', ' ', '\r', '\n'};
    var rest := "BUNDLE" + Tail(ids);
    assert Render(Group(ids)) == "a=group" + [':'] + rest;
    SplitCut("a=group", ':', rest, delims, 10);
    if ids == [] {
      assert rest == "BUNDLE";
      SplitLast("BUNDLE", delims, 9);
      SplitEmpty(delims, 8);
    } else {
      assert rest == "BUNDLE" + [' '] + Spaced(ids);
      SplitCut("BUNDLE", ' ', Spaced(ids), delims, 9);
    }
    assert TAG_ENDS - {'='} == delims;
    assert (["a=group"] + (["BUNDLE"] + GroupPieces(ids)))[2..] == GroupPieces(ids);
  }

  lemma SplitEmpty(delims: set<char>, limit: int)
    ensures Spaced([]) == "" && Split("", delims, limit) == []
  {}

  lemma MidEffect(p: Parse, table: seq<RtpMap>, id: string)
    requires Clean(Mid(id)) && |p.sdp.session.bundleTags| <= 255
    ensures OnMid(p, Render(Mid(id))) == Some(Effect(p, table, Mid(id)))
  {
    hide Split;
    var delims := {':', ' ', '\r', '\n'};
    assert Render(Mid(id)) == "a=mid" + [':'] + id;
    SplitCut("a=mid", ':', id, delims, 4);
    SplitLast(id, delims, 3);
  }

  lemma CryptoText(c: Crypto)
    ensures
      Render(CryptoLine(c))
      == "a=crypto" + [':'] + (Dec(c.tag) + [' '] + (c.cipherSuite + [' '] + ("inline" + [':'] + c.keyParams)))
  {
    hide Dec, Spaced;
    SpacedTriple(Dec(c.tag), c.cipherSuite, "inline:" + c.keyParams);
  }

  lemma CryptoPieces(c: Crypto)
    requires Clean(CryptoLine(c))
    ensures
      Split(Render(CryptoLine(c)), {' ', ':'}, -1) == ["a=crypto", Dec(c.tag), c.cipherSuite, "inline", c.keyParams]
  {
    hide Split, Dec, Render;
    var delims := {' ', ':'};
    var last := "inline" + [':'] + c.keyParams;
    CryptoText(c);
    DecIsFree(c.tag, delims);
    SplitCut("a=crypto", ':', Dec(c.tag) + [' '] + (c.cipherSuite + [' '] + last), delims, -1);
    SplitCut(Dec(c.tag), ' ', c.cipherSuite + [' '] + last, delims, -2);
    SplitCut(c.cipherSuite, ' ', last, delims, -3);
    SplitCut("inline", ':', c.keyParams, delims, -4);
    SplitLast(c.keyParams, delims, -5);
  }

  lemma CryptoEffect(p: Parse, table: seq<RtpMap>, c: Crypto)
    requires Clean(CryptoLine(c))
    ensures OnCrypto(p, Render(CryptoLine(c))) == Some(Effect(p, table, CryptoLine(c)))
  {
    hide Split, Dec, Render;
    CryptoPieces(c);
  }

  lemma SpacedTriple(a: string, b: string, c: string)
    ensures Spaced([a, b, c]) == a + [' '] + (b + [' '] + c)
  {
    assert [a, b, c][1..] == [b, c];
    SpacedPair(b, c);
  }

  lemma CandidateEffect(p: Parse, table: seq<RtpMap>, c: Candidate)
    requires Clean(CandidateLine(c))
    ensures OnCandidate(p, Render(CandidateLine(c))) == Some(Effect(p, table, CandidateLine(c)))
  {
    hide FromLine, ToString;
    if Udp(c.netProtocol) {
      FromLineRestoresIff(c, p.mtype);
    } else {
      OtherProtocolsIgnored(c, p.mtype);
    }
  }

  lemma SsrcPieces(ssrc: nat, attribute: string)
    requires Clean(Ssrc(ssrc, attribute))
    ensures Split(Render(Ssrc(ssrc, attribute)), {' ', ':'}, 2) == ["a=ssrc", Dec(ssrc)] + Split(attribute, {' ', ':'}, 0)
  {
    hide Split, Dec;
    var delims := {' ', ':'};
    DecIsFree(ssrc, delims);
    assert Render(Ssrc(ssrc, attribute)) == "a=ssrc" + [':'] + (Dec(ssrc) + [' '] + attribute);
    SplitCut("a=ssrc", ':', Dec(ssrc) + [' '] + attribute, delims, 2);
    SplitCut(Dec(ssrc), ' ', attribute, delims, 1);
  }

  lemma SsrcEffect(p: Parse, table: seq<RtpMap>, ssrc: nat, attribute: string)
    requires Clean(Ssrc(ssrc, attribute))
    ensures OnSsrc(p, Render(Ssrc(ssrc, attribute))) == Some(Effect(p, table, Ssrc(ssrc, attribute)))
  {
    hide Split, Dec, ToUint, Render, WithSide, SideOf;
    ToUintOfDec(ssrc);
    SsrcPieces(ssrc, attribute);
  }

  lemma RtpmapEffect(p: Parse, table: seq<RtpMap>, pt: nat, name: string, clock: nat, channels: nat)
    requires Clean(Rtpmap(pt, name, clock, channels))
    ensures OnRtpmap(p, table, Render(Rtpmap(pt, name, clock, channels)))
            == Some(Effect(p, table, Rtpmap(pt, name, clock, channels)))
  {
    hide Split, Dec, ToUint, AddCodec;
    var delims := {' ', ':', '/', '\n'};
    DecIsFree(pt, delims);
    DecIsFree(clock, delims);
    ToUintOfDec(pt);
    ToUintOfDec(clock);
    var line := Render(Rtpmap(pt, name, clock, channels));
    if channels > 1 {
      var tail := Dec(clock) + ['/'] + Dec(channels);
      assert line == "a=rtpmap" + [':'] + (Dec(pt) + [' '] + (name + ['/'] + tail));
      SplitCut("a=rtpmap", ':', Dec(pt) + [' '] + (name + ['/'] + tail), delims, 4);
      SplitCut(Dec(pt), ' ', name + ['/'] + tail, delims, 3);
      SplitCut(name, '/', tail, delims, 2);
      SplitCut(Dec(clock), '/', Dec(channels), delims, 1);
    } else {
      assert line == "a=rtpmap" + [':'] + (Dec(pt) + [' '] + (name + ['/'] + Dec(clock)));
      SplitCut("a=rtpmap", ':', Dec(pt) + [' '] + (name + ['/'] + Dec(clock)), delims, 4);
      SplitCut(Dec(pt), ' ', name + ['/'] + Dec(clock), delims, 3);
      SplitCut(name, '/', Dec(clock), delims, 2);
      SplitLast(Dec(clock), delims, 1);
    }
  }

  lemma FmtpText(pt: nat, key: string, value: string)
    ensures
      var rest := if key != "none" then key + ['='] + value else value;
      Render(Fmtp(pt, key, value)) == "a" + ['='] + ("fmtp" + [':'] + (Dec(pt) + [' '] + rest))
  {
    hide Dec;
  }

  lemma FmtpPieces(pt: nat, key: string, value: string)
    requires Clean(Fmtp(pt, key, value))
    ensures
      Split(Render(Fmtp(pt, key, value)), {' ', ':', '='}, 4)
      == ["a", "fmtp", Dec(pt)] + if key != "none" then [key, value] else [value]
  {
    hide Split, Dec, Render;
    var delims := {' ', ':', '='};
    DecIsFree(pt, delims);
    FmtpText(pt, key, value);
    var rest := if key != "none" then key + ['='] + value else value;
    SplitCut("a", '=', "fmtp" + [':'] + (Dec(pt) + [' '] + rest), delims, 4);
    SplitCut("fmtp", ':', Dec(pt) + [' '] + rest, delims, 3);
    SplitCut(Dec(pt), ' ', rest, delims, 2);
    if key != "none" {
      SplitCut(key, '=', value, delims, 1);
      SplitLast(value, delims, 0);
    } else {
      SplitLast(value, delims, 1);
    }
  }

  lemma FmtpEffect(p: Parse, table: seq<RtpMap>, pt: nat, key: string, value: string)
    requires Clean(Fmtp(pt, key, value))
    ensures OnFmtp(p, Render(Fmtp(pt, key, value))) == Effect(p, table, Fmtp(pt, key, value))
  {
    hide Split, Dec, ToUint, SaveFormat, Render, WithPayloads, CleanParameter;
    ToUintOfDec(pt);
    FmtpPieces(pt, key, value);
  }

  lemma BandwidthEffect(p: Parse, table: seq<RtpMap>, kbps: nat)
    requires Clean(Bandwidth(kbps))
    ensures OnBandwidth(p, Render(Bandwidth(kbps))) == Effect(p, table, Bandwidth(kbps))
  {
    hide Split, Dec, ToUint;
    DecIsFree(kbps, {':'});
    ToUintOfDec(kbps);
    assert Render(Bandwidth(kbps)) == "b=AS" + [':'] + Dec(kbps);
    SplitCut("b=AS", ':', Dec(kbps), {':'}, 2);
    SplitLast(Dec(kbps), {':'}, 1);
  }

  lemma BranchEffect(p: Parse, table: seq<RtpMap>, item: Item)
    requires Clean(item) && |p.sdp.session.bundleTags| <= 255
    ensures Branch(p, table, item, Render(item)) == Some(Effect(p, table, item))
  {
    hide Render, Clean, OnGroup, OnFingerprint, OnCandidate, OnUser, OnPass, OnMid, OnCrypto, OnRtpmap, OnFmtp,
      OnSsrc, OnBandwidth, AddCodec;
    match item
    case Group(ids) => GroupEffect(p, table, ids);
    case CandidateLine(c) => CandidateEffect(p, table, c);
    case Ufrag(value) => UfragEffect(p, table, value);
    case Pwd(value) => PwdEffect(p, table, value);
    case Fingerprint(value) => FingerprintEffect(p, table, value);
    case Mid(id) => MidEffect(p, table, id);
    case CryptoLine(c) => CryptoEffect(p, table, c);
    case Rtpmap(pt, name, clock, channels) => RtpmapEffect(p, table, pt, name, clock, channels);
    case Fmtp(pt, key, value) => FmtpEffect(p, table, pt, key, value);
    case Ssrc(ssrc, attribute) => SsrcEffect(p, table, ssrc, attribute);
    case Bandwidth(kbps) => BandwidthEffect(p, table, kbps);
    case _ =>
  }

  /** The loop body on a printed line. */
  lemma LineEffect(p: Parse, table: seq<RtpMap>, item: Item)
    requires Clean(item) && p.sdp.session.profile == SAVPF && |p.sdp.session.bundleTags| <= 255
    ensures ProcessLine(p, table, Render(item)) == Some(Effect(p, table, item))
  {
    hide ProcessLine, Render, Quiet, Effect, Branch, Hit;
    if !item.Plain? {
      CleanIsQuiet(item);
      ScanOf(item);
    } else {
      PlainHits(item);
    }
    Dispatch(p, table, item, Render(item));
    BranchEffect(p, table, item);
  }

  lemma PlainHits(item: Item)
    requires item.Plain? && Clean(item)
    ensures Hit(Render(item), HitsOf(item)) && Free(Render(item), {'\n'})
  {
    hide Hit;
  }

  // ---------------------------------------------------------------- all the lines

  /** The effects of the lines one after the other. */
  function Replay(p: Parse, table: seq<RtpMap>, items: seq<Item>): Parse {
    if items == [] then p
    else Effect(Replay(p, table, items[..|items| - 1]), table, items[|items| - 1])
  }

  lemma ReplaySnoc(p: Parse, table: seq<RtpMap>, items: seq<Item>, item: Item)
    ensures Replay(p, table, items + [item]) == Effect(Replay(p, table, items), table, item)
  {
    hide Effect;
    assert (items + [item])[..|items|] == items;
  }

  lemma ReplayOne(p: Parse, table: seq<RtpMap>, item: Item)
    ensures Replay(p, table, [item]) == Effect(p, table, item)
  {
    hide Effect;
    assert [item][..0] == [];
  }

  lemma {:induction false} ReplayConcat(p: Parse, table: seq<RtpMap>, a: seq<Item>, b: seq<Item>)
    ensures Replay(p, table, a + b) == Replay(Replay(p, table, a), table, b)
    decreases |b|
  {
    hide Effect;
    if b == [] {
      assert a + b == a;
    } else {
      var c := b[..|b| - 1];
      ReplayConcat(p, table, a, c);
      assert a + b == (a + c) + [b[|b| - 1]];
      ReplaySnoc(p, table, a + c, b[|b| - 1]);
    }
  }

  /** The group line, which alone adds bundle tags, comes once at most. */
  predicate OneGroup(items: seq<Item>) {
    forall j, k :: 0 <= j < k < |items| ==> !(items[j].Group? && items[k].Group?)
  }

  predicate NoGroup(items: seq<Item>) {
    forall k :: 0 <= k < |items| ==> !items[k].Group?
  }

  predicate AllClean(items: seq<Item>) {
    forall k :: 0 <= k < |items| ==> Clean(items[k])
  }

  lemma GroupPiecesBound(ids: seq<string>)
    requires Words(ids, TAG_ENDS)
    ensures |GroupPieces(ids)| == if |ids| <= 9 then |ids| else 9
    ensures |ids| <= 9 ==> GroupPieces(ids) == ids
  {
    hide Split, Spaced;
    var delims := TAG_ENDS - {'='};
    if ids == [] {
      SplitEmpty(delims, 8);
    } else {
      assert Words(ids, delims);
      SplitSpaced(ids, delims, 8);
    }
  }

  lemma AddCodecKeeps(p: Parse, table: seq<RtpMap>, pt: nat, name: string, clock: nat)
    ensures AddCodec(p, table, pt, name, clock).sdp.session.profile == p.sdp.session.profile
    ensures AddCodec(p, table, pt, name, clock).sdp.session.bundleTags == p.sdp.session.bundleTags
  {
    hide Matched;
  }

  function TagsAdded(item: Item): nat {
    if item.Group? then |GroupPieces(item.ids)| else 0
  }

  lemma MediaKeeps(p: Parse, table: seq<RtpMap>, item: Item)
    requires OfMedia(item)
    ensures Effect(p, table, item).sdp.session.profile == p.sdp.session.profile
    ensures |Effect(p, table, item).sdp.session.bundleTags| == |p.sdp.session.bundleTags| + TagsAdded(item)
  {
    hide GroupPieces, Restored;
    match item
    case Group(ids) =>
    case MLine(media, _) =>
    case CandidateLine(c) =>
    case CryptoLine(c) =>
    case Mid(id) =>
  }

  lemma TransportKeeps(p: Parse, table: seq<RtpMap>, item: Item)
    requires OfTransport(item)
    ensures Effect(p, table, item).sdp.session.profile == p.sdp.session.profile
    ensures |Effect(p, table, item).sdp.session.bundleTags| == |p.sdp.session.bundleTags| + TagsAdded(item)
  {
    match item
    case Ufrag(_) =>
    case Pwd(_) =>
    case Fingerprint(_) =>
    case DirectionLine(_) =>
    case RtcpMux =>
  }

  lemma CodecKeeps(p: Parse, table: seq<RtpMap>, item: Item)
    requires OfCodec(item)
    ensures Effect(p, table, item).sdp.session.profile == p.sdp.session.profile
    ensures |Effect(p, table, item).sdp.session.bundleTags| == |p.sdp.session.bundleTags| + TagsAdded(item)
  {
    hide SaveFormat, AddCodec, Render;
    if item.Rtpmap? {
      AddCodecKeeps(p, table, item.pt, item.name, item.clock);
    }
  }

  lemma EffectKeeps(p: Parse, table: seq<RtpMap>, item: Item)
    ensures Effect(p, table, item).sdp.session.profile == p.sdp.session.profile
    ensures |Effect(p, table, item).sdp.session.bundleTags| == |p.sdp.session.bundleTags| + TagsAdded(item)
  {
    if item.Plain? {
    } else {
      hide Effect, TagsAdded;
      if OfMedia(item) {
        MediaKeeps(p, table, item);
      } else if OfTransport(item) {
        TransportKeeps(p, table, item);
      } else {
        CodecKeeps(p, table, item);
      }
    }
  }

  lemma {:induction false} ReplayBounds(p: Parse, table: seq<RtpMap>, items: seq<Item>)
    requires AllClean(items) && OneGroup(items) && p.sdp.session.profile == SAVPF && p.sdp.session.bundleTags == []
    ensures Replay(p, table, items).sdp.session.profile == SAVPF
    ensures |Replay(p, table, items).sdp.session.bundleTags| <= if NoGroup(items) then 0 else 9
    decreases |items|
  {
    hide Effect, Clean, GroupPieces;
    if items != [] {
      var last := items[|items| - 1];
      var before := items[..|items| - 1];
      ReplayBounds(p, table, before);
      EffectKeeps(Replay(p, table, before), table, last);
      if last.Group? {
        GroupWords(last);
        GroupPiecesBound(last.ids);
        assert NoGroup(before);
      }
    }
  }

  lemma GroupWords(item: Item)
    requires item.Group? && Clean(item)
    ensures Words(item.ids, TAG_ENDS)
  {}

  /** processSdp's loop over the printed text is the replay of its structure. */
  lemma {:induction false} LinesReplay(p: Parse, table: seq<RtpMap>, items: seq<Item>, n: nat)
    requires n <= |items| && AllClean(items) && OneGroup(items)
    requires p.sdp.session.profile == SAVPF && p.sdp.session.bundleTags == []
    ensures ProcessLines(p, table, Rendered(items), n) == Some(Replay(p, table, items[..n]))
  {
    hide Effect, Clean, Render, ProcessLine;
    if n == 0 {
      assert items[..0] == [];
    } else {
      LinesReplay(p, table, items, n - 1);
      ReplayBounds(p, table, items[..n - 1]);
      LineEffect(Replay(p, table, items[..n - 1]), table, items[n - 1]);
      assert items[..n] == items[..n - 1] + [items[n - 1]];
      ReplaySnoc(p, table, items[..n - 1], items[n - 1]);
    }
  }

  lemma RenderedHasNoNewline(items: seq<Item>, k: nat)
    requires k < |items| && Clean(items[k])
    ensures Free(Rendered(items)[k], {'\n'})
  {
    hide Render, Clean;
    if items[k].Plain? {
      PlainHits(items[k]);
    } else {
      CleanIsQuiet(items[k]);
    }
  }

  /** Reading back printed text: the loop and what follows it. */
  lemma ProcessOfText(s: Sdp, table: seq<RtpMap>, items: seq<Item>, media: string)
    requires AllClean(items) && OneGroup(items) && s.session.profile == SAVPF && s.session.bundleTags == []
    ensures Process(s, table, Text(items), media) == Finish(Replay(Parse(s, MediaOf(media), -1, []), table, items))
  {
    hide Replay, Finish, ProcessLines, Render, Clean, Lines, Unlines;
    var lines := Rendered(items);
    forall k | 0 <= k < |lines|
      ensures Free(lines[k], {'\n'})
    {
      RenderedHasNoNewline(items, k);
    }
    LinesOfUnlines(lines);
    LinesReplay(Parse(s, MediaOf(media), -1, []), table, items, |items|);
    assert items[..|items|] == items;
  }
}
