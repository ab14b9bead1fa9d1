/** Each line that getSdp prints is recognised by exactly the one branch of processSdp
    that is meant for it. */
module SdpLines {
  import opened SdpText
  import opened Candidates
  import opened SdpState
  import opened SdpPrint

  const TAG_STARTS: set<char> := {'a', 'b', 'm'}

  /** No equals sign but the one at index 1 can belong to a tag. */
  predicate Quiet(line: string) {
    forall k :: 2 <= k < |line| && line[k] == '=' ==> line[k - 1] !in TAG_STARTS
  }

  predicate At(line: string, k: nat, c: char) {
    k < |line| && line[k] == c
  }

  lemma OccursAtStart(line: string, tag: string)
    requires |tag| >= 2 && tag[0] in TAG_STARTS && tag[1] == '=' && Quiet(line)
    ensures Occurs(line, tag) <==> tag <= line
  {
    if Occurs(line, tag) {
      var p := OccursAt(line, tag);
      assert line[p..][0] == tag[0] && line[p..][1] == tag[1];
      assert line[p] in TAG_STARTS && line[p + 1] == '=';
      assert line[0..] == line;
    }
  }

  lemma TagChars(line: string, tag: string, i: nat, j: nat, k: nat)
    requires |tag| >= 2 && tag[0] in TAG_STARTS && tag[1] == '=' && Quiet(line)
    requires i < |tag| && j < |tag| && k < |tag|
    ensures Occurs(line, tag) ==> At(line, i, tag[i]) && At(line, j, tag[j]) && At(line, k, tag[k])
  {
    hide Occurs;
    OccursAtStart(line, tag);
  }

  /** Some characters that tell the tags apart. */
  lemma TagsDiffer(line: string)
    requires Quiet(line)
    ensures Occurs(line, "m=video") ==> At(line, 2, 'v')
    ensures Occurs(line, "m=audio") ==> At(line, 2, 'a')
    ensures Occurs(line, "a=group:") ==> At(line, 2, 'g')
    ensures Occurs(line, "a=mid") ==> At(line, 2, 'm') && At(line, 3, 'i')
    ensures Occurs(line, "a=candidate:") ==> At(line, 2, 'c') && At(line, 3, 'a')
    ensures Occurs(line, "a=crypto:") ==> At(line, 2, 'c') && At(line, 3, 'r')
    ensures Occurs(line, "a=ice-ufrag") ==> At(line, 2, 'i') && At(line, 6, 'u')
    ensures Occurs(line, "a=ice-pwd") ==> At(line, 2, 'i') && At(line, 6, 'p')
    ensures Occurs(line, "a=ssrc") ==> At(line, 2, 's') && At(line, 3, 's')
    ensures Occurs(line, "a=ssrc-group") ==> At(line, 2, 's') && At(line, 6, '-')
    ensures Occurs(line, "a=rtpmap:") ==> At(line, 2, 'r') && At(line, 3, 't') && At(line, 4, 'p')
    ensures Occurs(line, "a=rtcp-mux") ==> At(line, 2, 'r') && At(line, 3, 't') && At(line, 7, 'm')
    ensures Occurs(line, "a=sendrecv") ==> At(line, 2, 's') && At(line, 4, 'n') && At(line, 6, 'r')
    ensures Occurs(line, "a=recvonly") ==> At(line, 2, 'r') && At(line, 3, 'e')
    ensures Occurs(line, "a=sendonly") ==> At(line, 2, 's') && At(line, 4, 'n') && At(line, 6, 'o')
    ensures Occurs(line, "a=fingerprint") ==> At(line, 2, 'f') && At(line, 3, 'i')
    ensures Occurs(line, "a=rtcp-fb:") ==> At(line, 2, 'r') && At(line, 3, 't') && At(line, 7, 'f')
    ensures Occurs(line, "a=fmtp:") ==> At(line, 2, 'f') && At(line, 3, 'm')
    ensures Occurs(line, "b=AS:") ==> At(line, 2, 'A')
  {
    hide Occurs;
    TagChars(line, "m=video", 2, 2, 2);
    TagChars(line, "m=audio", 2, 2, 2);
    TagChars(line, "a=group:", 2, 2, 2);
    TagChars(line, "a=mid", 2, 3, 3);
    TagChars(line, "a=candidate:", 2, 3, 3);
    TagChars(line, "a=crypto:", 2, 3, 3);
    TagChars(line, "a=ice-ufrag", 2, 6, 6);
    TagChars(line, "a=ice-pwd", 2, 6, 6);
    TagChars(line, "a=ssrc", 2, 3, 3);
    TagChars(line, "a=ssrc-group", 2, 6, 6);
    TagChars(line, "a=rtpmap:", 2, 3, 4);
    TagChars(line, "a=rtcp-mux", 2, 3, 7);
    TagChars(line, "a=sendrecv", 2, 4, 6);
    TagChars(line, "a=recvonly", 2, 3, 3);
    TagChars(line, "a=sendonly", 2, 4, 6);
    TagChars(line, "a=fingerprint", 2, 3, 3);
    TagChars(line, "a=rtcp-fb:", 2, 3, 7);
    TagChars(line, "a=fmtp:", 2, 3, 3);
    TagChars(line, "b=AS:", 2, 2, 2);
  }

  const NO_SESSION := SessionHits(false, false, false, false, false, false, false, false, false)
  const NO_TRANSPORT := TransportHits(false, false, false, false, false)
  const NO_CODEC := CodecHits(false, false, false, false, false, false)

  function SessionOnly(h: SessionHits): Hits {
    Hits(h, NO_TRANSPORT, NO_CODEC)
  }

  function TransportOnly(h: TransportHits): Hits {
    Hits(NO_SESSION, h, NO_CODEC)
  }

  function CodecOnly(h: CodecHits): Hits {
    Hits(NO_SESSION, NO_TRANSPORT, h)
  }

  predicate Only(line: string, k: nat, c: char) {
    forall d {:trigger At(line, k, d)} :: At(line, k, d) <==> d == c
  }

  /** A line with this head has the tag, and these characters. */
  lemma HeadOf(tag: string, head: string, rest: string, i: nat, j: nat, k: nat, l: nat)
    requires tag <= head && i < |head| && j < |head| && k < |head| && l < |head|
    ensures Occurs(head + rest, tag)
    ensures Only(head + rest, i, head[i]) && Only(head + rest, j, head[j])
    ensures Only(head + rest, k, head[k]) && Only(head + rest, l, head[l])
  {
    assert tag <= head + rest;
  }

  /** The hits are these, save that the profile's name may occur anywhere. */
  predicate Hit(line: string, h: Hits) {
    var scan := Scan(line);
    scan.session.(savpf := false) == h.session && scan.transport == h.transport && scan.codec == h.codec
  }

  predicate Untagged(text: string) {
    Hit(text, SessionOnly(NO_SESSION))
  }

  /** The branches meant for a line. */
  function HitsOf(item: Item): Hits {
    match item
    case Plain(_) => SessionOnly(NO_SESSION)
    case Group(_) => SessionOnly(NO_SESSION.(group := true))
    case MLine(media, _) => SessionOnly(if media == AUDIO then NO_SESSION.(audio := true) else NO_SESSION.(video := true))
    case CandidateLine(_) => TransportOnly(NO_TRANSPORT.(cand := true))
    case Ufrag(_) => TransportOnly(NO_TRANSPORT.(user := true))
    case Pwd(_) => TransportOnly(NO_TRANSPORT.(pass := true))
    case Fingerprint(_) => SessionOnly(NO_SESSION.(fp := true))
    case DirectionLine(d) =>
      SessionOnly(match d
              case SENDRECV => NO_SESSION.(sendRecv := true)
              case SENDONLY => NO_SESSION.(sendOnly := true)
              case RECVONLY => NO_SESSION.(recvOnly := true))
    case Mid(_) => TransportOnly(NO_TRANSPORT.(mid := true))
    case RtcpMux => SessionOnly(NO_SESSION.(rtcpMux := true))
    case CryptoLine(_) => TransportOnly(NO_TRANSPORT.(crypt := true))
    case Rtpmap(_, _, _, _) => CodecOnly(NO_CODEC.(rtpmap := true))
    case Fmtp(_, _, _) => CodecOnly(NO_CODEC.(fmtp := true))
    case Feedback(_, _) => CodecOnly(NO_CODEC.(feedback := true))
    case Ssrc(_, _) => CodecOnly(NO_CODEC.(ssrc := true))
    case Bandwidth(_) => CodecOnly(NO_CODEC.(bandwidth := true))
  }

  /** A head that decides which tag a line has, and positions that tell it apart. */
  datatype Head = Head(tag: string, text: string, i: nat, j: nat, k: nat, l: nat)

  function HeadFor(item: Item): Head
    requires !item.Plain?
  {
    match item
    case Group(_) => Head("a=group:", "a=group:BUNDLE", 2, 2, 2, 2)
    case MLine(media, _) => if media == AUDIO then Head("m=audio", "m=audio", 2, 2, 2, 2) else Head("m=video", "m=video", 2, 2, 2, 2)
    case CandidateLine(_) => Head("a=candidate:", "a=candidate:", 2, 3, 3, 3)
    case Ufrag(_) => Head("a=ice-ufrag", "a=ice-ufrag:", 2, 3, 4, 6)
    case Pwd(_) => Head("a=ice-pwd", "a=ice-pwd:", 2, 3, 4, 6)
    case Fingerprint(_) => Head("a=fingerprint", "a=fingerprint:", 2, 3, 3, 3)
    case DirectionLine(d) => Head(DirectionText(d), DirectionText(d), 2, 3, 4, 6)
    case Mid(_) => Head("a=mid", "a=mid:", 2, 3, 3, 3)
    case RtcpMux => Head("a=rtcp-mux", "a=rtcp-mux", 2, 3, 4, 7)
    case CryptoLine(_) => Head("a=crypto:", "a=crypto:", 2, 3, 3, 3)
    case Rtpmap(_, _, _, _) => Head("a=rtpmap:", "a=rtpmap:", 2, 3, 4, 7)
    case Fmtp(_, _, _) => Head("a=fmtp:", "a=fmtp:", 2, 3, 3, 3)
    case Feedback(_, _) => Head("a=rtcp-fb:", "a=rtcp-fb:", 2, 3, 4, 7)
    case Ssrc(_, _) => Head("a=ssrc", "a=ssrc:", 2, 3, 4, 6)
    case Bandwidth(_) => Head("b=AS:", "b=AS:", 2, 2, 2, 2)
  }

  lemma RenderHead(item: Item) returns (rest: string)
    requires !item.Plain?
    ensures Render(item) == HeadFor(item).text + rest
  {
    hide Spaced, Tail, Dec, WordsOf;
    rest := Render(item)[|HeadFor(item).text|..];
  }

  predicate OfMedia(item: Item) {
    item.Group? || item.MLine? || item.CandidateLine? || item.CryptoLine? || item.Mid?
  }

  predicate OfTransport(item: Item) {
    item.Ufrag? || item.Pwd? || item.Fingerprint? || item.DirectionLine? || item.RtcpMux?
  }

  predicate OfCodec(item: Item) {
    item.Rtpmap? || item.Fmtp? || item.Feedback? || item.Ssrc? || item.Bandwidth?
  }

  lemma ScanOfMedia(item: Item)
    requires OfMedia(item) && Quiet(Render(item))
    ensures Hit(Render(item), HitsOf(item))
  {
    hide Occurs, At, Render, Quiet;
    var rest := RenderHead(item);
    var h := HeadFor(item);
    TagsDiffer(Render(item));
    HeadOf(h.tag, h.text, rest, h.i, h.j, h.k, h.l);
  }

  lemma ScanOfTransport(item: Item)
    requires OfTransport(item) && Quiet(Render(item))
    ensures Hit(Render(item), HitsOf(item))
  {
    hide Occurs, At, Render, Quiet;
    var rest := RenderHead(item);
    var h := HeadFor(item);
    TagsDiffer(Render(item));
    HeadOf(h.tag, h.text, rest, h.i, h.j, h.k, h.l);
  }

  lemma ScanOfCodec(item: Item)
    requires OfCodec(item) && Quiet(Render(item))
    ensures Hit(Render(item), HitsOf(item))
  {
    hide Occurs, At, Render, Quiet;
    var rest := RenderHead(item);
    var h := HeadFor(item);
    TagsDiffer(Render(item));
    HeadOf(h.tag, h.text, rest, h.i, h.j, h.k, h.l);
  }

  /** A printed line has its own tag and no other. */
  lemma ScanOf(item: Item)
    requires !item.Plain? && Quiet(Render(item))
    ensures Hit(Render(item), HitsOf(item))
  {
    hide Hit, Render, Quiet, HitsOf;
    if OfMedia(item) {
      ScanOfMedia(item);
    } else if OfTransport(item) {
      ScanOfTransport(item);
    } else {
      ScanOfCodec(item);
    }
  }
}
