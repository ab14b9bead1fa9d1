/** Reading back the codecs of a printed description: rtpmap, fmtp and rtcp-fb lines. */
module SdpCodecs {
  import opened Common
  import opened SdpText
  import opened Candidates
  import opened SdpState
  import opened SdpPrint
  import opened SdpLines
  import opened SdpEffects
  import opened SdpClean

  // ---------------------------------------------------------------- the codec table

  predicate UniqueCodecs(table: seq<RtpMap>) {
    forall i, j :: 0 <= i < j < |table| ==> !SameCodec(table[i], table[j])
  }

  lemma VideoEntriesAreUnique(encoding: Encoding, redFec: bool)
    ensures UniqueCodecs(VideoEntries(encoding, redFec))
    ensures forall r :: r in VideoEntries(encoding, redFec) ==> r.clockRate == 90000 && r.mediaType == VIDEO && r.payloadType != 111
  {
    var table := VideoEntries(encoding, redFec);
    forall i, j | 0 <= i < j < |table|
      ensures !SameCodec(table[i], table[j])
    {
      assert |table[i].encodingName| != |table[j].encodingName| || table[i].encodingName[0] != table[j].encodingName[0];
    }
  }

  lemma AudioEntriesAreUnique()
    ensures UniqueCodecs(AudioEntries())
    ensures forall r :: r in AudioEntries() ==> r.clockRate != 90000 && r.mediaType == AUDIO
  {
    var table := AudioEntries();
    forall i, j | 0 <= i < j < |table|
      ensures !SameCodec(table[i], table[j])
    {
      assert table[i].clockRate != table[j].clockRate || |table[i].encodingName| != |table[j].encodingName|;
    }
  }

  lemma InternalTableIsUnique(encoding: Encoding, redFec: bool)
    ensures UniqueCodecs(InternalTable(encoding, redFec))
  {
    hide VideoEntries, AudioEntries;
    var video, audio := VideoEntries(encoding, redFec), AudioEntries();
    VideoEntriesAreUnique(encoding, redFec);
    AudioEntriesAreUnique();
    forall i, j | 0 <= i < j < |video + audio|
      ensures !SameCodec((video + audio)[i], (video + audio)[j])
    {
      if i >= |video| {
        assert !SameCodec(audio[i - |video|], audio[j - |video|]);
      }
    }
  }

  lemma {:induction false} MatchedAt(table: seq<RtpMap>, k: nat, n: nat, m: Match, pt: nat)
    requires UniqueCodecs(table) && k < |table| && n <= |table| && SameCodec(table[k], m.codec)
    ensures Matched(table, n, m, pt) == if k < n then Assign(m, table[k], pt) else m
  {
    hide Assign;
    if n > 0 {
      MatchedAt(table, k, n - 1, m, pt);
      AssignSame(m, table[k], pt);
      if n - 1 != k {
        assert !SameCodec(table[if k < n - 1 then k else n - 1], table[if k < n - 1 then n - 1 else k]);
      }
    }
  }

  lemma AssignSame(m: Match, entry: RtpMap, pt: nat)
    ensures SameCodec(Assign(m, entry, pt).codec, m.codec)
  {}

  /** The codec as its rtpmap line alone is read. */
  function Bare(r: RtpMap): RtpMap {
    r.(feedbackTypes := [], formatParameters := [])
  }

  function AfterRtpmap(p: Parse, r: RtpMap): Parse {
    var own := p.sdp.payloads;
    p.(sdp := CountCodec(p.sdp, p.mtype).(
      payloads := Payloads(own.list + [Bare(r)], own.inOut[r.payloadType := r.payloadType],
                           own.outIn[r.payloadType := r.payloadType])))
  }

  lemma RtpmapRead(p: Parse, table: seq<RtpMap>, r: RtpMap)
    requires UniqueCodecs(table) && InTable(table, r) && r.payloadType < INT && r.mediaType == p.mtype
    ensures AddCodec(p, table, r.payloadType, r.encodingName, r.clockRate) == AfterRtpmap(p, r)
  {
    hide Matched, CountCodec, UniqueCodecs;
    var k :| 0 <= k < |table| && SameCodec(table[k], r) && table[k].payloadType == r.payloadType
             && table[k].channels == r.channels && table[k].mediaType == r.mediaType;
    var own := p.sdp.payloads;
    var m := Match(Codec(r.payloadType, r.encodingName, r.clockRate, p.mtype, 0, []), false, own.inOut, own.outIn);
    MatchedAt(table, k, |table|, m, r.payloadType);
  }

  // ---------------------------------------------------------------- parameters

  predicate Ascending(parameters: seq<(string, string)>) {
    forall i, j :: 0 <= i < j < |parameters| ==> Less(parameters[i].0, parameters[j].0)
  }

  lemma {:induction false} InsertLast(m: seq<(string, string)>, key: string, value: string)
    requires forall k :: 0 <= k < |m| ==> Less(m[k].0, key)
    ensures Insert(m, key, value) == m + [(key, value)]
  {
    hide Less;
    if m != [] {
      LessIsAsymmetric(m[0].0, key);
      InsertLast(m[1..], key, value);
      assert m == [m[0]] + m[1..];
    }
  }

  /** A key is inserted in its place; a key that is there keeps it. */
  lemma {:induction false} InsertKeepsOrder(m: seq<(string, string)>, key: string, value: string)
    requires Ascending(m)
    ensures Ascending(Insert(m, key, value))
    ensures forall e :: e in Insert(m, key, value) ==> e.0 == key || e in m
  {
    hide Less;
    if m != [] {
      assert m == [m[0]] + m[1..];
      LessIsTotal(key, m[0].0);
      if m[0].0 != key && Less(key, m[0].0) {
        forall k | 0 <= k < |m| ensures Less(key, m[k].0) {
          if k > 0 {
            LessIsTransitive(key, m[0].0, m[k].0);
          }
        }
      } else if m[0].0 != key {
        InsertKeepsOrder(m[1..], key, value);
        KeysStayBehind(m[0].0, Insert(m[1..], key, value));
      }
    }
  }

  lemma KeysStayBehind(first: string, rest: seq<(string, string)>)
    requires forall e :: e in rest ==> Less(first, e.0)
    ensures forall k :: 0 <= k < |rest| ==> Less(first, rest[k].0)
  {}

  /** The payload types in use. */
  predicate Unused(list: seq<RtpMap>, pt: nat) {
    forall k :: 0 <= k < |list| ==> list[k].payloadType != pt
  }

  lemma SaveInLast(list: seq<RtpMap>, c: RtpMap, key: string, value: string)
    requires Unused(list, c.payloadType)
    ensures
      SaveFormat(list + [c], c.payloadType, key, value)
      == list + [c.(formatParameters := Insert(c.formatParameters, key, value))]
  {
    hide Insert;
  }

  function WithList(p: Parse, list: seq<RtpMap>): Parse {
    WithPayloads(p, p.sdp.payloads.(list := list))
  }

  /** The parameters of one payload type saved one after the other. */
  function SaveAll(list: seq<RtpMap>, pt: nat, parameters: seq<(string, string)>, n: nat): (r: seq<RtpMap>)
    requires n <= |parameters|
    ensures |r| == |list|
  {
    if n == 0 then list
    else SaveFormat(SaveAll(list, pt, parameters, n - 1), pt, parameters[n - 1].0, parameters[n - 1].1)
  }

  lemma FmtpStep(p: Parse, table: seq<RtpMap>, list: seq<RtpMap>, pt: nat, key: string, value: string)
    ensures Effect(WithList(p, list), table, Fmtp(pt, key, value)) == WithList(p, SaveFormat(list, pt, key, value))
  {
    hide SaveFormat;
  }

  lemma {:induction false} ReplayFmtp(p: Parse, table: seq<RtpMap>, pt: nat, parameters: seq<(string, string)>, n: nat)
    requires n <= |parameters|
    ensures
      Replay(p, table, FmtpItems(pt, parameters, n)) == WithList(p, SaveAll(p.sdp.payloads.list, pt, parameters, n))
  {
    hide Effect, WithList, SaveFormat;
    if n == 0 {
      SameLists(p);
    } else {
      ReplayFmtp(p, table, pt, parameters, n - 1);
      var last := parameters[n - 1];
      ReplaySnoc(p, table, FmtpItems(pt, parameters, n - 1), Fmtp(pt, last.0, last.1));
      FmtpStep(p, table, SaveAll(p.sdp.payloads.list, pt, parameters, n - 1), pt, last.0, last.1);
    }
  }

  // ---------------------------------------------------------------- feedback lines

  /** The lines saved for after the loop, from (payload type, feedback) pairs. */
  function FeedbackLines(pairs: seq<(nat, string)>): seq<string> {
    seq(|pairs|, k requires 0 <= k < |pairs| => Render(Feedback(pairs[k].0, pairs[k].1)))
  }

  function WithFeedback(p: Parse, pairs: seq<(nat, string)>): Parse {
    p.(feedback := p.feedback + FeedbackLines(pairs))
  }

  function PairsOf(pt: nat, types: seq<string>): seq<(nat, string)> {
    seq(|types|, k requires 0 <= k < |types| => (pt, types[k]))
  }

  lemma FeedbackStep(p: Parse, table: seq<RtpMap>, pairs: seq<(nat, string)>, pt: nat, value: string)
    ensures Effect(WithFeedback(p, pairs), table, Feedback(pt, value)) == WithFeedback(p, pairs + [(pt, value)])
  {
    hide Render;
    assert FeedbackLines(pairs + [(pt, value)]) == FeedbackLines(pairs) + [Render(Feedback(pt, value))];
  }

  lemma {:induction false} ReplayFeedback(p: Parse, table: seq<RtpMap>, pt: nat, types: seq<string>, n: nat)
    requires n <= |types|
    ensures Replay(p, table, FeedbackItems(pt, types, n)) == WithFeedback(p, PairsOf(pt, types[..n]))
  {
    hide Effect, WithFeedback;
    if n == 0 {
      assert PairsOf(pt, types[..0]) == [];
      SameLists(p);
    } else {
      ReplayFeedback(p, table, pt, types, n - 1);
      ReplaySnoc(p, table, FeedbackItems(pt, types, n - 1), Feedback(pt, types[n - 1]));
      FeedbackStep(p, table, PairsOf(pt, types[..n - 1]), pt, types[n - 1]);
      assert PairsOf(pt, types[..n]) == PairsOf(pt, types[..n - 1]) + [(pt, types[n - 1])];
    }
  }

  lemma SameLists(p: Parse)
    ensures WithFeedback(p, []) == p && WithList(p, p.sdp.payloads.list) == p
  {}

  // ---------------------------------------------------------------- one codec

  function ReadParameters(r: RtpMap, minBitrate: nat, o: Options): seq<(string, string)> {
    if r.mediaType == VIDEO && o.setMinBitrate then Insert(r.formatParameters, MIN_BITRATE, Dec(minBitrate))
    else r.formatParameters
  }

  /** Feedback is printed for video only. */
  function PrintedPairs(r: RtpMap): seq<(nat, string)> {
    if r.mediaType == VIDEO then PairsOf(r.payloadType, r.feedbackTypes) else []
  }

  /** The list after the parameter lines of r. */
  function SavePrinted(list: seq<RtpMap>, r: RtpMap, minBitrate: nat, o: Options): seq<RtpMap> {
    var own := SaveAll(list, r.payloadType, r.formatParameters, |r.formatParameters|);
    if r.mediaType == VIDEO && o.setMinBitrate then SaveFormat(own, r.payloadType, MIN_BITRATE, Dec(minBitrate)) else own
  }

  function AfterCodec(p: Parse, r: RtpMap, minBitrate: nat, o: Options): Parse {
    var q := WithFeedback(AfterRtpmap(p, r), PrintedPairs(r));
    WithList(q, SavePrinted(p.sdp.payloads.list + [Bare(r)], r, minBitrate, o))
  }

  lemma RtpmapStep(p: Parse, table: seq<RtpMap>, r: RtpMap, channels: nat)
    requires UniqueCodecs(table) && InTable(table, r) && r.payloadType < INT && r.mediaType == p.mtype
    ensures
      Replay(p, table, [Rtpmap(r.payloadType, r.encodingName, r.clockRate, channels)]) == AfterRtpmap(p, r)
    ensures AfterRtpmap(p, r).sdp.payloads.list == p.sdp.payloads.list + [Bare(r)]
  {
    hide Replay, AddCodec, UniqueCodecs, InTable;
    RtpmapRead(p, table, r);
    ReplayOne(p, table, Rtpmap(r.payloadType, r.encodingName, r.clockRate, channels));
  }

  lemma ReplayAudioCodec(p: Parse, table: seq<RtpMap>, r: RtpMap, minBitrate: nat, o: Options)
    requires UniqueCodecs(table) && InTable(table, r) && r.payloadType < INT && r.mediaType == p.mtype == AUDIO
    ensures Replay(p, table, CodecItems(r, minBitrate, o)) == AfterCodec(p, r, minBitrate, o)
  {
    hide Replay, UniqueCodecs, InTable, FmtpItems, AfterRtpmap, WithList, WithFeedback, SaveAll;
    var a := [Rtpmap(r.payloadType, r.encodingName, r.clockRate, r.channels)];
    RtpmapStep(p, table, r, r.channels);
    var q := AfterRtpmap(p, r);
    ReplayFmtp(q, table, r.payloadType, r.formatParameters, |r.formatParameters|);
    ReplayConcat(p, table, a, FmtpItems(r.payloadType, r.formatParameters, |r.formatParameters|));
    SameLists(q);
  }

  lemma FeedbackKeepsList(p: Parse, pairs: seq<(nat, string)>)
    ensures WithFeedback(p, pairs).sdp == p.sdp
  {}

  lemma ReplayVideoCodec(p: Parse, table: seq<RtpMap>, r: RtpMap, minBitrate: nat, o: Options)
    requires UniqueCodecs(table) && InTable(table, r) && r.payloadType < INT && r.mediaType == p.mtype == VIDEO
    ensures Replay(p, table, CodecItems(r, minBitrate, o)) == AfterCodec(p, r, minBitrate, o)
  {
    hide Replay, UniqueCodecs, InTable, FmtpItems, FeedbackItems, AfterRtpmap, WithList, WithFeedback, Dec, Effect,
      PairsOf, SaveAll, SaveFormat;
    var a := [Rtpmap(r.payloadType, r.encodingName, r.clockRate, 1)];
    var b := FeedbackItems(r.payloadType, r.feedbackTypes, |r.feedbackTypes|);
    var c := FmtpItems(r.payloadType, r.formatParameters, |r.formatParameters|);
    var d := Fmtp(r.payloadType, MIN_BITRATE, Dec(minBitrate));
    RtpmapStep(p, table, r, 1);
    ReplayFeedback(AfterRtpmap(p, r), table, r.payloadType, r.feedbackTypes, |r.feedbackTypes|);
    assert r.feedbackTypes[..|r.feedbackTypes|] == r.feedbackTypes;
    ReplayConcat(p, table, a, b);
    var q := WithFeedback(AfterRtpmap(p, r), PrintedPairs(r));
    FeedbackKeepsList(AfterRtpmap(p, r), PrintedPairs(r));
    ReplayFmtp(q, table, r.payloadType, r.formatParameters, |r.formatParameters|);
    ReplayConcat(p, table, a + b, c);
    if o.setMinBitrate {
      ReplaySnoc(p, table, a + b + c, d);
      FmtpStep(q, table, SaveAll(p.sdp.payloads.list + [Bare(r)], r.payloadType, r.formatParameters, |r.formatParameters|),
               r.payloadType, MIN_BITRATE, Dec(minBitrate));
    } else {
      assert CodecItems(r, minBitrate, o) == a + b + c;
    }
  }

  // ---------------------------------------------------------------- all codecs of a section

  /** The list after the codecs of a medium: each is appended, and its parameters go to
      every codec read so far that has its payload type. */
  function ReadList(own: seq<RtpMap>, payloads: seq<RtpMap>, media: MediaType, minBitrate: nat, o: Options, n: nat):
    seq<RtpMap>
    requires n <= |payloads|
  {
    if n == 0 then own else
      var before := ReadList(own, payloads, media, minBitrate, o, n - 1);
      var r := payloads[n - 1];
      if r.mediaType == media then SavePrinted(before + [Bare(r)], r, minBitrate, o) else before
  }

  function AllPairs(payloads: seq<RtpMap>, media: MediaType, n: nat): seq<(nat, string)>
    requires n <= |payloads|
  {
    if n == 0 then [] else
      AllPairs(payloads, media, n - 1)
      + (if payloads[n - 1].mediaType == media then PrintedPairs(payloads[n - 1]) else [])
  }

  /** The payload type maps: a type of the table stands for itself. */
  function AddTypes(own: map<int, int>, payloads: seq<RtpMap>, media: MediaType, n: nat): map<int, int>
    requires n <= |payloads|
  {
    if n == 0 then own else
      var before := AddTypes(own, payloads, media, n - 1);
      var pt := payloads[n - 1].payloadType;
      if payloads[n - 1].mediaType == media then before[pt := pt] else before
  }

  function CountCodecs(s: Sdp, media: MediaType, count: nat): Sdp {
    if media == VIDEO then s.(video := s.video.(codecs := s.video.codecs + count))
    else s.(audio := s.audio.(codecs := s.audio.codecs + count))
  }

  function AfterPayloads(p: Parse, payloads: seq<RtpMap>, minBitrate: nat, o: Options, n: nat): Parse
    requires n <= |payloads|
  {
    var own := p.sdp.payloads;
    Parse(
      CountCodecs(p.sdp, p.mtype, Count(payloads, p.mtype, n)).(
        payloads := Payloads(ReadList(own.list, payloads, p.mtype, minBitrate, o, n),
                             AddTypes(own.inOut, payloads, p.mtype, n), AddTypes(own.outIn, payloads, p.mtype, n))),
      p.mtype, p.mline, p.feedback + FeedbackLines(AllPairs(payloads, p.mtype, n)))
  }

  lemma FeedbackLinesConcat(a: seq<(nat, string)>, b: seq<(nat, string)>)
    ensures FeedbackLines(a + b) == FeedbackLines(a) + FeedbackLines(b)
  {
    hide Render;
  }

  lemma PayloadsStep(p: Parse, payloads: seq<RtpMap>, minBitrate: nat, o: Options, n: nat)
    requires 0 < n <= |payloads|
    ensures
      var before := AfterPayloads(p, payloads, minBitrate, o, n - 1);
      AfterPayloads(p, payloads, minBitrate, o, n)
      == if payloads[n - 1].mediaType == p.mtype then AfterCodec(before, payloads[n - 1], minBitrate, o) else before
  {
    hide SavePrinted, PrintedPairs, FeedbackLines, Bare;
    var pairs := AllPairs(payloads, p.mtype, n - 1);
    FeedbackLinesConcat(pairs, PrintedPairs(payloads[n - 1]));
    assert pairs + [] == pairs;
  }

  lemma PayloadsNone(p: Parse, payloads: seq<RtpMap>, minBitrate: nat, o: Options)
    ensures AfterPayloads(p, payloads, minBitrate, o, 0) == p
  {
    assert FeedbackLines([]) == [];
  }

  predicate GoodCodec(table: seq<RtpMap>, r: RtpMap) {
    InTable(table, r) && r.payloadType < INT
  }

  lemma ReplayCodec(p: Parse, table: seq<RtpMap>, r: RtpMap, minBitrate: nat, o: Options)
    requires UniqueCodecs(table) && GoodCodec(table, r) && r.mediaType == p.mtype != OTHER
    ensures Replay(p, table, CodecItems(r, minBitrate, o)) == AfterCodec(p, r, minBitrate, o)
  {
    hide Replay, UniqueCodecs, InTable, CodecItems, AfterCodec;
    if r.mediaType == AUDIO {
      ReplayAudioCodec(p, table, r, minBitrate, o);
    } else {
      ReplayVideoCodec(p, table, r, minBitrate, o);
    }
  }

  lemma {:induction false} ReplayPayloads(p: Parse, table: seq<RtpMap>, payloads: seq<RtpMap>, minBitrate: nat,
                                          o: Options, n: nat)
    requires n <= |payloads| && UniqueCodecs(table) && p.mtype != OTHER
    requires forall k :: 0 <= k < |payloads| ==> GoodCodec(table, payloads[k])
    ensures
      Replay(p, table, PayloadItems(payloads, p.mtype, minBitrate, o, n)) == AfterPayloads(p, payloads, minBitrate, o, n)
  {
    hide Replay, UniqueCodecs, GoodCodec, CodecItems, AfterCodec, AfterPayloads;
    if n == 0 {
      PayloadsNone(p, payloads, minBitrate, o);
      ReplayNone(p, table);
    } else {
      ReplayPayloads(p, table, payloads, minBitrate, o, n - 1);
      PayloadsStep(p, payloads, minBitrate, o, n);
      var before := PayloadItems(payloads, p.mtype, minBitrate, o, n - 1);
      var q := AfterPayloads(p, payloads, minBitrate, o, n - 1);
      var r := payloads[n - 1];
      if r.mediaType == p.mtype {
        PayloadsMedia(p, payloads, minBitrate, o, n - 1);
        ReplayCodec(q, table, r, minBitrate, o);
        ReplayConcat(p, table, before, CodecItems(r, minBitrate, o));
      } else {
        assert PayloadItems(payloads, p.mtype, minBitrate, o, n) == before;
      }
    }
  }

  lemma PayloadsMedia(p: Parse, payloads: seq<RtpMap>, minBitrate: nat, o: Options, n: nat)
    requires n <= |payloads|
    ensures AfterPayloads(p, payloads, minBitrate, o, n).mtype == p.mtype
  {
    hide ReadList, AddTypes, FeedbackLines, AllPairs;
  }

  lemma ReplayNone(p: Parse, table: seq<RtpMap>)
    ensures Replay(p, table, []) == p
  {}

  // ---------------------------------------------------------------- what always comes back

  /** The codecs without their parameters and feedback. */
  function Bares(list: seq<RtpMap>): seq<RtpMap> {
    seq(|list|, k requires 0 <= k < |list| => Bare(list[k]))
  }

  /** The bare codecs of a medium, in order. */
  function BaresOf(payloads: seq<RtpMap>, media: MediaType, n: nat): seq<RtpMap>
    requires n <= |payloads|
  {
    if n == 0 then [] else
      BaresOf(payloads, media, n - 1) + (if payloads[n - 1].mediaType == media then [Bare(payloads[n - 1])] else [])
  }

  lemma SaveKeepsBares(list: seq<RtpMap>, pt: nat, key: string, value: string)
    ensures Bares(SaveFormat(list, pt, key, value)) == Bares(list)
  {
    hide Insert;
  }

  lemma {:induction false} SaveAllKeepsBares(list: seq<RtpMap>, pt: nat, parameters: seq<(string, string)>, n: nat)
    requires n <= |parameters|
    ensures Bares(SaveAll(list, pt, parameters, n)) == Bares(list)
  {
    hide SaveFormat, Bares;
    if n > 0 {
      SaveAllKeepsBares(list, pt, parameters, n - 1);
      SaveKeepsBares(SaveAll(list, pt, parameters, n - 1), pt, parameters[n - 1].0, parameters[n - 1].1);
    }
  }

  lemma BaresSnoc(list: seq<RtpMap>, r: RtpMap)
    ensures Bares(list + [Bare(r)]) == Bares(list) + [Bare(r)]
  {}

  /** Whatever the payload types, the codecs of a medium are read in order. */
  lemma {:induction false} ReadListBares(own: seq<RtpMap>, payloads: seq<RtpMap>, media: MediaType, minBitrate: nat,
                                         o: Options, n: nat)
    requires n <= |payloads|
    ensures
      Bares(ReadList(own, payloads, media, minBitrate, o, n)) == Bares(own) + BaresOf(payloads, media, n)
  {
    hide SaveFormat, Bares, SaveAll, Bare;
    if n > 0 {
      ReadListBares(own, payloads, media, minBitrate, o, n - 1);
      var before := ReadList(own, payloads, media, minBitrate, o, n - 1);
      var r := payloads[n - 1];
      if r.mediaType == media {
        var list := before + [Bare(r)];
        BaresSnoc(before, r);
        SaveAllKeepsBares(list, r.payloadType, r.formatParameters, |r.formatParameters|);
        SaveKeepsBares(SaveAll(list, r.payloadType, r.formatParameters, |r.formatParameters|), r.payloadType, MIN_BITRATE, Dec(minBitrate));
      }
    }
  }

  // ---------------------------------------------------------------- whose parameters come back

  /** The codecs of a medium, in order. */
  function PrintedOf(payloads: seq<RtpMap>, media: MediaType, n: nat): seq<RtpMap>
    requires n <= |payloads|
  {
    if n == 0 then [] else
      PrintedOf(payloads, media, n - 1) + (if payloads[n - 1].mediaType == media then [payloads[n - 1]] else [])
  }

  lemma {:induction false} PrintedMedia(payloads: seq<RtpMap>, media: MediaType, n: nat)
    requires n <= |payloads|
    ensures forall j :: 0 <= j < |PrintedOf(payloads, media, n)| ==> PrintedOf(payloads, media, n)[j].mediaType == media
  {
    if n > 0 {
      PrintedMedia(payloads, media, n - 1);
    }
  }

  /** formatParameters[key] */
  function ValueAt(m: seq<(string, string)>, key: string): Option<string> {
    if m == [] then None else if m[0].0 == key then Some(m[0].1) else ValueAt(m[1..], key)
  }

  lemma {:induction false} InsertValue(m: seq<(string, string)>, key: string, value: string, x: string)
    ensures ValueAt(Insert(m, key, value), x) == if x == key then Some(value) else ValueAt(m, x)
  {
    hide Less;
    if m != [] {
      InsertValue(m[1..], key, value, x);
      assert ([(key, value)] + m[1..])[1..] == m[1..] && ([(key, value)] + m)[1..] == m;
      assert ([m[0]] + Insert(m[1..], key, value))[1..] == Insert(m[1..], key, value);
    } else {
      assert [(key, value)][1..] == [];
    }
  }

  lemma SaveValue(list: seq<RtpMap>, pt: nat, key: string, value: string, i: nat, x: string)
    requires i < |list|
    ensures
      var r := SaveFormat(list, pt, key, value)[i];
      && r.payloadType == list[i].payloadType
      && ValueAt(r.formatParameters, x)
         == if list[i].payloadType == pt && x == key then Some(value) else ValueAt(list[i].formatParameters, x)
  {
    hide ValueAt, Insert;
    InsertValue(list[i].formatParameters, key, value, x);
  }

  /** The value of the last of the first n parameters with the key. */
  function LastValue(parameters: seq<(string, string)>, n: nat, key: string): Option<string>
    requires n <= |parameters|
  {
    if n == 0 then None
    else if parameters[n - 1].0 == key then Some(parameters[n - 1].1)
    else LastValue(parameters, n - 1, key)
  }

  function Or(a: Option<string>, b: Option<string>): Option<string> {
    if a.Some? then a else b
  }

  lemma {:induction false} SaveAllValue(list: seq<RtpMap>, pt: nat, parameters: seq<(string, string)>, n: nat, i: nat, x: string)
    requires n <= |parameters| && i < |list|
    ensures
      var r := SaveAll(list, pt, parameters, n)[i];
      var own := ValueAt(list[i].formatParameters, x);
      && r.payloadType == list[i].payloadType
      && ValueAt(r.formatParameters, x) == if list[i].payloadType == pt then Or(LastValue(parameters, n, x), own) else own
  {
    hide ValueAt, SaveFormat;
    if n > 0 {
      SaveAllValue(list, pt, parameters, n - 1, i, x);
      SaveValue(SaveAll(list, pt, parameters, n - 1), pt, parameters[n - 1].0, parameters[n - 1].1, i, x);
    }
  }

  /** The value the lines printed for r give a key. */
  function PrintedValue(r: RtpMap, minBitrate: nat, o: Options, key: string): Option<string> {
    if r.mediaType == VIDEO && o.setMinBitrate && key == MIN_BITRATE then Some(Dec(minBitrate))
    else LastValue(r.formatParameters, |r.formatParameters|, key)
  }

  lemma SavePrintedValue(list: seq<RtpMap>, r: RtpMap, minBitrate: nat, o: Options, i: nat, x: string)
    requires i < |list|
    ensures |SavePrinted(list, r, minBitrate, o)| == |list|
    ensures
      var p := SavePrinted(list, r, minBitrate, o)[i];
      var own := ValueAt(list[i].formatParameters, x);
      && p.payloadType == list[i].payloadType
      && ValueAt(p.formatParameters, x)
         == if list[i].payloadType == r.payloadType then Or(PrintedValue(r, minBitrate, o, x), own) else own
  {
    hide ValueAt, LastValue, SaveFormat, SaveAll, Dec;
    var n := |r.formatParameters|;
    SaveAllValue(list, r.payloadType, r.formatParameters, n, i, x);
    SaveValue(SaveAll(list, r.payloadType, r.formatParameters, n), r.payloadType, MIN_BITRATE, Dec(minBitrate), i, x);
    SaveLength(SaveAll(list, r.payloadType, r.formatParameters, n), r.payloadType, MIN_BITRATE, Dec(minBitrate));
  }

  lemma SaveLength(list: seq<RtpMap>, pt: nat, key: string, value: string)
    ensures |SaveFormat(list, pt, key, value)| == |list|
  {}

  /** The value of a key in codec i once the first n codecs have been printed: the last one
      printed, from codec i on, for its payload type. */
  function Given(printed: seq<RtpMap>, n: nat, i: nat, key: string, minBitrate: nat, o: Options): Option<string>
    requires n <= |printed| && i < |printed|
  {
    if n <= i then None else
      var before := Given(printed, n - 1, i, key, minBitrate, o);
      var r := printed[n - 1];
      if r.payloadType == printed[i].payloadType then Or(PrintedValue(r, minBitrate, o, key), before) else before
  }

  lemma {:induction false} GivenPrefix(printed: seq<RtpMap>, more: seq<RtpMap>, n: nat, i: nat, key: string, minBitrate: nat,
                                       o: Options)
    requires n <= |printed| && i < |printed|
    ensures Given(printed + more, n, i, key, minBitrate, o) == Given(printed, n, i, key, minBitrate, o)
  {
    hide PrintedValue;
    if n > i {
      GivenPrefix(printed, more, n - 1, i, key, minBitrate, o);
    }
  }

  lemma {:induction false} GivenNone(printed: seq<RtpMap>, n: nat, i: nat, key: string, minBitrate: nat, o: Options)
    requires n <= |printed| && i < |printed|
    requires forall j :: 0 <= j < |printed| ==> PrintedValue(printed[j], minBitrate, o, key).None?
    ensures Given(printed, n, i, key, minBitrate, o).None?
  {
    hide PrintedValue;
    if n > i {
      GivenNone(printed, n - 1, i, key, minBitrate, o);
    }
  }

  predicate SharedFrom(printed: seq<RtpMap>, a: nat, n: nat, i: nat)
    requires n <= |printed| && i < |printed|
  {
    exists j :: a <= j < n && printed[j].payloadType == printed[i].payloadType
  }

  /** Video codecs printed from a on give the bit rate to every codec of their types. */
  lemma {:induction false} GivenBitrate(printed: seq<RtpMap>, a: nat, n: nat, i: nat, minBitrate: nat, o: Options)
    requires i < a <= n <= |printed| && o.setMinBitrate
    requires forall j :: a <= j < |printed| ==> printed[j].mediaType == VIDEO
    ensures
      Given(printed, n, i, MIN_BITRATE, minBitrate, o)
      == if SharedFrom(printed, a, n, i) then Some(Dec(minBitrate)) else Given(printed, a, i, MIN_BITRATE, minBitrate, o)
  {
    hide Dec, LastValue;
    if n > a {
      GivenBitrate(printed, a, n - 1, i, minBitrate, o);
      assert SharedFrom(printed, a, n, i)
          <==> SharedFrom(printed, a, n - 1, i) || printed[n - 1].payloadType == printed[i].payloadType;
    }
  }

  /** A list as read from the printed codecs. */
  ghost predicate ValuesFrom(list: seq<RtpMap>, printed: seq<RtpMap>, minBitrate: nat, o: Options) {
    && |list| == |printed|
    && (forall i :: 0 <= i < |list| ==> list[i].payloadType == printed[i].payloadType)
    && (forall i, key :: 0 <= i < |list| ==>
          ValueAt(list[i].formatParameters, key) == Given(printed, |printed|, i, key, minBitrate, o))
  }

  lemma ValuesStep(list: seq<RtpMap>, printed: seq<RtpMap>, r: RtpMap, minBitrate: nat, o: Options)
    requires ValuesFrom(list, printed, minBitrate, o)
    ensures ValuesFrom(SavePrinted(list + [Bare(r)], r, minBitrate, o), printed + [r], minBitrate, o)
  {
    hide SavePrinted, PrintedValue;
    var before, more := list + [Bare(r)], printed + [r];
    var after := SavePrinted(before, r, minBitrate, o);
    SavePrintedValue(before, r, minBitrate, o, |list|, "");
    forall i | 0 <= i < |more|
      ensures after[i].payloadType == more[i].payloadType
    {
      SavePrintedValue(before, r, minBitrate, o, i, "");
    }
    forall i, key | 0 <= i < |more|
      ensures ValueAt(after[i].formatParameters, key) == Given(more, |more|, i, key, minBitrate, o)
    {
      SavePrintedValue(before, r, minBitrate, o, i, key);
      if i < |printed| {
        GivenPrefix(printed, [r], |printed|, i, key, minBitrate, o);
      }
    }
  }

  /** Reading the codecs of a medium: every codec has the values printed for its payload type
      from it on, and no others. */
  lemma {:induction false} ReadListValues(own: seq<RtpMap>, read: seq<RtpMap>, payloads: seq<RtpMap>, media: MediaType,
                                          minBitrate: nat, o: Options, n: nat)
    requires n <= |payloads| && ValuesFrom(own, read, minBitrate, o)
    ensures
      ValuesFrom(ReadList(own, payloads, media, minBitrate, o, n), read + PrintedOf(payloads, media, n), minBitrate, o)
  {
    hide ValuesFrom, SavePrinted;
    if n == 0 {
      assert read + [] == read;
    } else {
      ReadListValues(own, read, payloads, media, minBitrate, o, n - 1);
      var before := read + PrintedOf(payloads, media, n - 1);
      if payloads[n - 1].mediaType == media {
        ValuesStep(ReadList(own, payloads, media, minBitrate, o, n - 1), before, payloads[n - 1], minBitrate, o);
        assert read + PrintedOf(payloads, media, n) == before + [payloads[n - 1]];
      } else {
        assert read + PrintedOf(payloads, media, n) == before;
      }
    }
  }

  // ---------------------------------------------------------------- distinct payload types

  predicate DistinctTypes(payloads: seq<RtpMap>) {
    forall i, j :: 0 <= i < j < |payloads| ==> payloads[i].payloadType != payloads[j].payloadType
  }

  lemma {:induction false} SaveAllInLast(list: seq<RtpMap>, r: RtpMap, n: nat)
    requires n <= |r.formatParameters| && Unused(list, r.payloadType) && Ascending(r.formatParameters)
    ensures
      SaveAll(list + [Bare(r)], r.payloadType, r.formatParameters, n)
      == list + [Bare(r).(formatParameters := r.formatParameters[..n])]
  {
    hide SaveFormat, Insert, Less;
    if n > 0 {
      SaveAllInLast(list, r, n - 1);
      var last := r.formatParameters[n - 1];
      SaveInLast(list, Bare(r).(formatParameters := r.formatParameters[..n - 1]), last.0, last.1);
      InsertLast(r.formatParameters[..n - 1], last.0, last.1);
      assert r.formatParameters[..n] == r.formatParameters[..n - 1] + [last];
    }
  }

  lemma SavePrintedInLast(list: seq<RtpMap>, r: RtpMap, minBitrate: nat, o: Options)
    requires Unused(list, r.payloadType) && Ascending(r.formatParameters)
    ensures
      SavePrinted(list + [Bare(r)], r, minBitrate, o)
      == list + [Bare(r).(formatParameters := ReadParameters(r, minBitrate, o))]
  {
    hide SaveFormat, SaveAll, Insert, Less, Unused;
    SaveAllInLast(list, r, |r.formatParameters|);
    assert r.formatParameters[..|r.formatParameters|] == r.formatParameters;
    SaveInLast(list, Bare(r).(formatParameters := r.formatParameters), MIN_BITRATE, Dec(minBitrate));
  }

  /** The codecs of a medium as they are read, before the feedback is mapped, when no two
      have the same payload type. */
  function ReadCodecs(payloads: seq<RtpMap>, media: MediaType, minBitrate: nat, o: Options, n: nat): seq<RtpMap>
    requires n <= |payloads|
  {
    if n == 0 then [] else
      var r := payloads[n - 1];
      ReadCodecs(payloads, media, minBitrate, o, n - 1)
      + (if r.mediaType == media then [Bare(r).(formatParameters := ReadParameters(r, minBitrate, o))] else [])
  }

  lemma {:induction false} ReadUnused(payloads: seq<RtpMap>, media: MediaType, minBitrate: nat, o: Options, n: nat, k: nat)
    requires n <= |payloads| && k < |payloads| && DistinctTypes(payloads)
    requires k >= n || payloads[k].mediaType != media
    ensures Unused(ReadCodecs(payloads, media, minBitrate, o, n), payloads[k].payloadType)
  {
    hide ReadParameters;
    if n > 0 {
      ReadUnused(payloads, media, minBitrate, o, n - 1, k);
      assert payloads[n - 1].mediaType == media ==> n - 1 != k;
    }
  }

  /** None of the payloads of a medium has a type in use. */
  predicate AllUnused(list: seq<RtpMap>, payloads: seq<RtpMap>, media: MediaType) {
    forall k :: 0 <= k < |payloads| && payloads[k].mediaType == media ==> Unused(list, payloads[k].payloadType)
  }

  lemma UnusedConcat(a: seq<RtpMap>, b: seq<RtpMap>, pt: nat)
    requires Unused(a, pt) && Unused(b, pt)
    ensures Unused(a + b, pt)
  {}

  lemma {:induction false} ReadListIs(own: seq<RtpMap>, payloads: seq<RtpMap>, media: MediaType, minBitrate: nat,
                                      o: Options, n: nat)
    requires n <= |payloads| && DistinctTypes(payloads) && AllUnused(own, payloads, media)
    requires forall k :: 0 <= k < |payloads| ==> Ascending(payloads[k].formatParameters)
    ensures
      ReadList(own, payloads, media, minBitrate, o, n) == own + ReadCodecs(payloads, media, minBitrate, o, n)
  {
    hide SavePrinted, ReadParameters, Unused, DistinctTypes, Ascending, Bare;
    if n > 0 {
      ReadListIs(own, payloads, media, minBitrate, o, n - 1);
      var r := payloads[n - 1];
      if r.mediaType == media {
        var before := ReadCodecs(payloads, media, minBitrate, o, n - 1);
        ReadUnused(payloads, media, minBitrate, o, n - 1, n - 1);
        UnusedConcat(own, before, r.payloadType);
        SavePrintedInLast(own + before, r, minBitrate, o);
      }
    }
  }

  // ---------------------------------------------------------------- mapping the feedback

  function Received(pairs: seq<(nat, string)>, pt: nat): seq<string> {
    if pairs == [] then [] else
      var last := pairs[|pairs| - 1];
      Received(pairs[..|pairs| - 1], pt) + (if last.0 == pt then [last.1] else [])
  }

  function GiveFeedback(list: seq<RtpMap>, pairs: seq<(nat, string)>): seq<RtpMap> {
    seq(|list|, k requires 0 <= k < |list| =>
      list[k].(feedbackTypes := list[k].feedbackTypes + Received(pairs, list[k].payloadType)))
  }

  predicate CleanPairs(pairs: seq<(nat, string)>) {
    forall k :: 0 <= k < |pairs| ==> pairs[k].0 < UINT && Word(pairs[k].1, LINE_ENDS)
  }

  lemma FeedbackPieces(pt: nat, value: string)
    requires pt < UINT && value != ""
    ensures Split(Render(Feedback(pt, value)), {' ', ':'}, 2) == ["a=rtcp-fb", Dec(pt), value]
  {
    hide Split, Dec;
    var delims := {' ', ':'};
    DecIsFree(pt, delims);
    assert Render(Feedback(pt, value)) == "a=rtcp-fb" + [':'] + (Dec(pt) + [' '] + value);
    SplitCut("a=rtcp-fb", ':', Dec(pt) + [' '] + value, delims, 2);
    SplitCut(Dec(pt), ' ', value, delims, 1);
    SplitLast(value, delims, 0);
  }

  lemma GiveOne(list: seq<RtpMap>, pairs: seq<(nat, string)>, pt: nat, value: string)
    ensures SaveFeedback(GiveFeedback(list, pairs), pt, value) == GiveFeedback(list, pairs + [(pt, value)])
  {
    hide Received;
    var more := pairs + [(pt, value)];
    var left, right := SaveFeedback(GiveFeedback(list, pairs), pt, value), GiveFeedback(list, more);
    forall k | 0 <= k < |list|
      ensures left[k] == right[k]
    {
      var own, given := list[k].feedbackTypes, Received(pairs, list[k].payloadType);
      var last := if pt == list[k].payloadType then [value] else [];
      ReceivedSnoc(pairs, (pt, value), list[k].payloadType);
      assert own + (given + last) == (own + given) + last;
    }
    assert left == right;
  }

  lemma {:induction false} MapPairs(list: seq<RtpMap>, pairs: seq<(nat, string)>, n: nat)
    requires n <= |pairs| && CleanPairs(pairs)
    ensures MapFeedback(list, FeedbackLines(pairs), n) == Some(GiveFeedback(list, pairs[..n]))
  {
    hide Render, Split, Dec, ToUint, SaveFeedback, GiveFeedback, Word;
    if n == 0 {
      assert pairs[..0] == [];
      GiveNone(list);
    } else {
      MapPairs(list, pairs, n - 1);
      var last := pairs[n - 1];
      assert last.1 != "" by { WordIsSome(last.1); }
      FeedbackPieces(last.0, last.1);
      ToUintOfDec(last.0);
      GiveOne(list, pairs[..n - 1], last.0, last.1);
      assert pairs[..n] == pairs[..n - 1] + [last];
    }
  }

  lemma WordIsSome(s: string)
    requires Word(s, LINE_ENDS)
    ensures s != ""
  {}

  lemma GiveKeepsBares(list: seq<RtpMap>, pairs: seq<(nat, string)>)
    ensures Bares(GiveFeedback(list, pairs)) == Bares(list)
  {
    hide Received;
  }

  lemma GiveNone(list: seq<RtpMap>)
    ensures GiveFeedback(list, []) == list
  {
    forall k | 0 <= k < |list|
      ensures GiveFeedback(list, [])[k] == list[k]
    {
      assert list[k].feedbackTypes + Received([], list[k].payloadType) == list[k].feedbackTypes;
    }
  }

  lemma {:induction false} ReceivedConcat(a: seq<(nat, string)>, b: seq<(nat, string)>, pt: nat)
    ensures Received(a + b, pt) == Received(a, pt) + Received(b, pt)
    decreases |b|
  {
    if b == [] {
      assert a + b == a;
    } else {
      assert (a + b)[..|a + b| - 1] == a + b[..|b| - 1];
      ReceivedConcat(a, b[..|b| - 1], pt);
    }
  }

  lemma ReceivedSnoc(pairs: seq<(nat, string)>, last: (nat, string), pt: nat)
    ensures Received(pairs + [last], pt) == Received(pairs, pt) + if last.0 == pt then [last.1] else []
  {
    assert (pairs + [last])[..|pairs|] == pairs;
  }

  lemma PairsSnoc(pt: nat, types: seq<string>, value: string)
    ensures PairsOf(pt, types + [value]) == PairsOf(pt, types) + [(pt, value)]
  {}

  lemma {:induction false} ReceivedOfPairs(pt: nat, types: seq<string>, other: nat)
    ensures Received(PairsOf(pt, types), other) == if pt == other then types else []
  {
    hide Received;
    if types == [] {
      ReceivedEmpty(other);
      assert PairsOf(pt, types) == [];
    } else {
      var before := types[..|types| - 1];
      ReceivedOfPairs(pt, before, other);
      assert types == before + [types[|types| - 1]];
      PairsSnoc(pt, before, types[|types| - 1]);
      ReceivedSnoc(PairsOf(pt, before), (pt, types[|types| - 1]), other);
    }
  }

  /** Of the pairs of all video codecs, a video codec gets its own. */
  lemma {:induction false} ReceivedOfAll(payloads: seq<RtpMap>, n: nat, k: nat)
    requires n <= |payloads| && k < |payloads| && DistinctTypes(payloads)
    ensures
      Received(AllPairs(payloads, VIDEO, n), payloads[k].payloadType)
      == if k < n && payloads[k].mediaType == VIDEO then payloads[k].feedbackTypes else []
  {
    hide Received, PairsOf;
    if n > 0 {
      var r := payloads[n - 1];
      ReceivedOfAll(payloads, n - 1, k);
      ReceivedConcat(AllPairs(payloads, VIDEO, n - 1), if r.mediaType == VIDEO then PrintedPairs(r) else [], payloads[k].payloadType);
      ReceivedOfPairs(r.payloadType, r.feedbackTypes, payloads[k].payloadType);
      ReceivedEmpty(payloads[k].payloadType);
    } else {
      ReceivedEmpty(payloads[k].payloadType);
    }
  }

  lemma ReceivedEmpty(pt: nat)
    ensures Received([], pt) == []
  {}

  lemma {:induction false} AllPairsClean(payloads: seq<RtpMap>, media: MediaType, n: nat)
    requires n <= |payloads| && forall k :: 0 <= k < |payloads| ==> CleanCodec(payloads[k])
    ensures CleanPairs(AllPairs(payloads, media, n))
  {
    hide Word, CleanParameter;
    if n > 0 {
      AllPairsClean(payloads, media, n - 1);
    }
  }

  // ---------------------------------------------------------------- whose feedback comes back

  /** The feedback that the first n printed codecs ask for a payload type, video only. */
  function Asked(printed: seq<RtpMap>, n: nat, pt: nat): seq<string>
    requires n <= |printed|
  {
    if n == 0 then [] else
      var r := printed[n - 1];
      Asked(printed, n - 1, pt) + (if r.mediaType == VIDEO && r.payloadType == pt then r.feedbackTypes else [])
  }

  lemma {:induction false} AskedConcat(a: seq<RtpMap>, b: seq<RtpMap>, pt: nat, n: nat)
    requires n <= |b|
    ensures Asked(a + b, |a| + n, pt) == Asked(a, |a|, pt) + Asked(b, n, pt)
  {
    if n == 0 {
      AskedPrefix(a, b, pt, |a|);
    } else {
      AskedConcat(a, b, pt, n - 1);
      var last := if b[n - 1].mediaType == VIDEO && b[n - 1].payloadType == pt then b[n - 1].feedbackTypes else [];
      assert (a + b)[|a| + n - 1] == b[n - 1];
      assert Asked(a, |a|, pt) + Asked(b, n - 1, pt) + last == Asked(a, |a|, pt) + (Asked(b, n - 1, pt) + last);
    }
  }

  lemma {:induction false} AskedPrefix(a: seq<RtpMap>, b: seq<RtpMap>, pt: nat, n: nat)
    requires n <= |a|
    ensures Asked(a + b, n, pt) == Asked(a, n, pt)
  {
    if n > 0 {
      AskedPrefix(a, b, pt, n - 1);
    }
  }

  lemma {:induction false} AskedByAudio(printed: seq<RtpMap>, n: nat, pt: nat)
    requires n <= |printed| && forall j :: 0 <= j < |printed| ==> printed[j].mediaType == AUDIO
    ensures Asked(printed, n, pt) == []
  {
    if n > 0 {
      AskedByAudio(printed, n - 1, pt);
    }
  }

  lemma AskedOne(r: RtpMap, pt: nat)
    ensures Asked([r], 1, pt) == if r.mediaType == VIDEO && r.payloadType == pt then r.feedbackTypes else []
  {
    assert Asked([r], 0, pt) == [];
  }

  lemma AskedNone(pt: nat)
    ensures Asked([], 0, pt) == []
  {}

  /** The pairs of all video codecs bring every payload type what is asked for it. */
  lemma {:induction false} ReceivedIsAsked(payloads: seq<RtpMap>, n: nat, pt: nat)
    requires n <= |payloads|
    ensures
      var printed := PrintedOf(payloads, VIDEO, n);
      Received(AllPairs(payloads, VIDEO, n), pt) == Asked(printed, |printed|, pt)
  {
    hide Received, PairsOf, Asked;
    ReceivedEmpty(pt);
    AskedNone(pt);
    if n > 0 {
      var r := payloads[n - 1];
      ReceivedIsAsked(payloads, n - 1, pt);
      if r.mediaType == VIDEO {
        ReceivedConcat(AllPairs(payloads, VIDEO, n - 1), PrintedPairs(r), pt);
        ReceivedOfPairs(r.payloadType, r.feedbackTypes, pt);
        AskedConcat(PrintedOf(payloads, VIDEO, n - 1), [r], pt, 1);
        AskedOne(r, pt);
      } else {
        assert PrintedOf(payloads, VIDEO, n) == PrintedOf(payloads, VIDEO, n - 1);
        assert AllPairs(payloads, VIDEO, n) == AllPairs(payloads, VIDEO, n - 1);
      }
    }
  }

  /** Before the feedback is mapped no codec has any. */
  predicate NoFeedback(list: seq<RtpMap>) {
    forall k :: 0 <= k < |list| ==> list[k].feedbackTypes == []
  }

  lemma {:induction false} SaveAllNoFeedback(list: seq<RtpMap>, pt: nat, parameters: seq<(string, string)>, n: nat)
    requires n <= |parameters| && NoFeedback(list)
    ensures NoFeedback(SaveAll(list, pt, parameters, n))
  {
    hide Insert;
    if n > 0 {
      SaveAllNoFeedback(list, pt, parameters, n - 1);
    }
  }

  lemma SavePrintedNoFeedback(list: seq<RtpMap>, r: RtpMap, minBitrate: nat, o: Options)
    requires NoFeedback(list)
    ensures NoFeedback(SavePrinted(list + [Bare(r)], r, minBitrate, o))
  {
    hide Insert, SaveAll, Dec;
    SaveAllNoFeedback(list + [Bare(r)], r.payloadType, r.formatParameters, |r.formatParameters|);
  }

  lemma {:induction false} ReadListNoFeedback(own: seq<RtpMap>, payloads: seq<RtpMap>, media: MediaType, minBitrate: nat,
                                              o: Options, n: nat)
    requires n <= |payloads| && NoFeedback(own)
    ensures NoFeedback(ReadList(own, payloads, media, minBitrate, o, n))
  {
    hide NoFeedback, SavePrinted;
    if n > 0 {
      ReadListNoFeedback(own, payloads, media, minBitrate, o, n - 1);
      SavePrintedNoFeedback(ReadList(own, payloads, media, minBitrate, o, n - 1), payloads[n - 1], minBitrate, o);
    }
  }
}
