/** What each kind of line does to the object, in the words of the object's fields
    (orbit/sdp_info.cc:742-1013). */
module SdpLineWords {
  import opened Common
  import opened SdpText
  import opened Candidates
  import opened SdpState
  import opened SdpPrint
  import opened SdpLines
  import opened SdpEffects

  /** Of the side that a line belongs to: the audio side in an audio section, and otherwise the
      video side. */
  function OfSide(p: Parse, audio: Side, video: Side): Parse {
    p.(sdp := if p.mtype == AUDIO then p.sdp.(audio := audio) else p.sdp.(video := video))
  }

  /** The object after a line, codecs and candidates aside. */
  function AfterLine(p: Parse, item: Item): Parse
    requires !item.Rtpmap? && !item.CandidateLine? && !item.Group?
  {
    var s := p.sdp;
    match item
    case Plain(_) => p
    case MLine(media, _) =>
      if media == AUDIO then Parse(s.(audio := s.audio.(mLine := p.mline + 1, has := true)), AUDIO, p.mline + 1, p.feedback)
      else Parse(s.(video := s.video.(mLine := p.mline + 1, has := true)), VIDEO, p.mline + 1, p.feedback)
    case Ufrag(value) => OfSide(p, s.audio.(username := value), s.video.(username := value))
    case Pwd(value) => OfSide(p, s.audio.(password := value), s.video.(password := value))
    case Fingerprint(value) => p.(sdp := s.(session := s.session.(fingerprint := value, isFingerprint := true)))
    case DirectionLine(d) => OfSide(p, s.audio.(direction := d), s.video.(direction := d))
    case Mid(id) =>
      var tags := s.session.bundleTags;
      p.(sdp := s.(session := s.session.(bundleTags := seq(|tags|, k requires 0 <= k < |tags| =>
        BundleTag(tags[k].id, if tags[k].id == id then p.mtype else tags[k].mediaType)))))
    case RtcpMux => p.(sdp := s.(session := s.session.(isRtcpMux := true)))
    case CryptoLine(c) => p.(sdp := s.(cryptos := s.cryptos + [Crypto(0, c.cipherSuite, c.keyParams, p.mtype)]))
    case Fmtp(pt, key, value) =>
      var list := s.payloads.list;
      p.(sdp := s.(payloads := s.payloads.(list := seq(|list|, k requires 0 <= k < |list| =>
        if list[k].payloadType == pt then list[k].(formatParameters := Insert(list[k].formatParameters, key, value))
        else list[k]))))
    case Feedback(_, _) => p.(feedback := p.feedback + [Render(item)])
    case Ssrc(ssrc, _) =>
      if p.mtype == AUDIO then (if s.audio.ssrc == 0 then p.(sdp := s.(audio := s.audio.(ssrc := ssrc))) else p)
      else if p.mtype == VIDEO then (if s.video.ssrc == 0 then p.(sdp := s.(video := s.video.(ssrc := ssrc))) else p)
      else p
    case Bandwidth(kbps) => if p.mtype == VIDEO then p.(sdp := s.(extra := s.extra.(bandwidth := kbps))) else p
  }

  /** The text of a clean line does that. */
  lemma LineTold(p: Parse, table: seq<RtpMap>, item: Item)
    requires Clean(item) && p.sdp.session.profile == SAVPF && |p.sdp.session.bundleTags| <= 255
    requires !item.Rtpmap? && !item.CandidateLine? && !item.Group?
    ensures ProcessLine(p, table, Render(item)) == Some(AfterLine(p, item))
  {
    LineEffect(p, table, item);
    EffectTold(p, table, item);
  }

  lemma EffectTold(p: Parse, table: seq<RtpMap>, item: Item)
    requires !item.Rtpmap? && !item.CandidateLine? && !item.Group?
    ensures Effect(p, table, item) == AfterLine(p, item)
  {
    hide Insert, Render;
    match item
    case Mid(id) =>
      assert SetMedia(p.sdp.session.bundleTags, id, p.mtype) == AfterLine(p, item).sdp.session.bundleTags;
    case Fmtp(pt, key, value) =>
      assert SaveFormat(p.sdp.payloads.list, pt, key, value) == AfterLine(p, item).sdp.payloads.list;
    case _ =>
  }

  /** The loop over the tags counts in 8 bits: from 256 tags on a mid line is never done with. */
  lemma MidNeverEnds(p: Parse, table: seq<RtpMap>, id: string)
    requires Clean(Mid(id)) && p.sdp.session.profile == SAVPF && |p.sdp.session.bundleTags| >= 256
    ensures ProcessLine(p, table, "a=mid:" + id) == None
  {
    hide ProcessLine, Split, Quiet, Hit;
    var item := Mid(id);
    CleanIsQuiet(item);
    ScanOf(item);
    Dispatch(p, table, item, Render(item));
    var delims := {':', ' ', '\r', '\n'};
    assert Render(item) == "a=mid" + [':'] + id;
    SplitCut("a=mid", ':', id, delims, 4);
    SplitLast(id, delims, 3);
  }

  // ---------------------------------------------------------------- any group line

  lemma GroupParts(name: string, ids: seq<string>)
    requires Words([name] + ids, TAG_ENDS) && |ids| <= 9
    ensures Split("a=group:" + name + Tail(ids), {':', ' ', '\r', '\n'}, 10) == ["a=group", name] + ids
  {
    hide Split;
    var delims := {':', ' ', '\r', '\n'};
    var words := [name] + ids;
    assert words[0] == name && words[1..] == ids;
    assert Spaced(words) == name + Tail(ids);
    assert "a=group:" + name + Tail(ids) == "a=group" + [':'] + Spaced(words);
    assert forall k :: 0 <= k < |words| ==> Free(words[k], delims);
    SplitCut("a=group", ':', Spaced(words), delims, 10);
    SplitSpaced(words, delims, 9);
  }

  lemma GroupQuiet(name: string, ids: seq<string>)
    requires Words([name] + ids, TAG_ENDS)
    ensures Quiet("a=group:" + (name + Tail(ids)))
  {
    assert ([name] + ids)[0] == name && forall k :: 0 <= k < |ids| ==> ids[k] == ([name] + ids)[k + 1];
    SpacedIsFree(ids, {'=', '\n'});
    FreeConcat(name, Tail(ids), {'=', '\n'});
    QuietLine("a=group:", name + Tail(ids));
  }

  lemma GroupLineHits(rest: string)
    requires Quiet("a=group:" + rest)
    ensures Hit("a=group:" + rest, SessionOnly(NO_SESSION.(group := true)))
  {
    hide Occurs, At, Quiet;
    TagsDiffer("a=group:" + rest);
    HeadOf("a=group:", "a=group:", rest, 2, 2, 2, 2);
  }

  /** The session once a group of this name has been read. */
  function Grouped(session: Session, name: string, ids: seq<string>): Session {
    session.(isBundle := session.isBundle || name == "BUNDLE",
             bundleTags := session.bundleTags + seq(|ids|, k requires 0 <= k < |ids| => BundleTag(ids[k], OTHER)))
  }

  lemma GroupHandled(p: Parse, line: string, name: string, ids: seq<string>)
    requires Split(line, {':', ' ', '\r', '\n'}, 10) == ["a=group", name] + ids
    ensures OnGroup(p, line) == Some(p.(sdp := p.sdp.(session := Grouped(p.sdp.session, name, ids))))
  {
    hide Split;
    assert (["a=group", name] + ids)[2..] == ids;
    assert NewTags(ids) == seq(|ids|, k requires 0 <= k < |ids| => BundleTag(ids[k], OTHER));
  }

  /** A group line adds its tags, up to nine, without a medium; one named BUNDLE makes the
      description a bundle, and no other line takes that back. */
  lemma GroupLine(p: Parse, table: seq<RtpMap>, name: string, ids: seq<string>)
    requires Words([name] + ids, TAG_ENDS) && |ids| <= 9 && p.sdp.session.profile == SAVPF
    ensures
      ProcessLine(p, table, "a=group:" + name + Tail(ids))
      == Some(p.(sdp := p.sdp.(session := Grouped(p.sdp.session, name, ids))))
  {
    hide ProcessLine, Hit, Split, Quiet, Words, Tail, OnGroup, Grouped;
    var line := "a=group:" + name + Tail(ids);
    assert line == "a=group:" + (name + Tail(ids));
    GroupQuiet(name, ids);
    GroupLineHits(name + Tail(ids));
    GroupParts(name, ids);
    Dispatch(p, table, Group([]), line);
    GroupHandled(p, line, name, ids);
  }
}
