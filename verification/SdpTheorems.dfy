/** The round trip: what processSdp makes of the text getSdp prints, field by field
    (orbit/sdp_info.cc:302-566, 728-1058). */
module SdpTheorems {
  import opened Common
  import opened SdpText
  import opened Candidates
  import opened SdpState
  import opened SdpPrint
  import opened SdpLines
  import opened SdpEffects
  import opened SdpClean
  import opened SdpSections
  import opened SdpCodecs
  import opened SdpRoundTrip

  /** What the theorems take for granted: a section to print, clean tokens, and codecs of
      the table. */
  predicate Faithful(s: Sdp, o: Options, table: seq<RtpMap>) {
    && (s.audio.has || s.video.has) && CleanSdp(s, o)
    && GoodCodecs(table, s.payloads.list)
  }

  // ---------------------------------------------------------------- the result

  function TagsRead(s: Sdp): seq<BundleTag> {
    var tags := s.session.bundleTags;
    var named := if s.session.isBundle then NewTags(GroupPieces(TagIds(tags))) else [];
    var heard := if s.audio.has then Marked(named, tags, AUDIO, |tags|) else named;
    if s.video.has then Marked(heard, tags, VIDEO, |tags|) else heard
  }

  function AudioSide(s: Sdp, direction: Direction): Side {
    if s.audio.has then
      Side(true, 0, s.audio.direction, AudioUsername(s), AudioPassword(s), AudioSsrc(s),
           Count(s.payloads.list, AUDIO, |s.payloads.list|))
    else NewSide(direction)
  }

  /** The own SSRC of the video, or else the first other one that is printed. */
  function VideoSsrc(s: Sdp): nat {
    First(FirstSsrc(s.video.ssrc, s.extra.extendedSsrc, |s.extra.extendedSsrc|), s.extra.rtxSsrc)
  }

  function VideoSide(s: Sdp, direction: Direction): Side {
    if s.video.has then
      Side(true, if s.audio.has then 1 else 0, s.video.direction, s.video.username, s.video.password,
           VideoSsrc(s), Count(s.payloads.list, VIDEO, |s.payloads.list|))
    else NewSide(direction)
  }

  /** The codecs read, audio first, before the feedback is mapped. */
  function CodecsRead(s: Sdp, o: Options): seq<RtpMap> {
    var all := s.payloads.list;
    var heard := if s.audio.has then ReadList([], all, AUDIO, s.extra.minBitrate, o, |all|) else [];
    if s.video.has then ReadList(heard, all, VIDEO, s.extra.minBitrate, o, |all|) else heard
  }

  function TypesBack(s: Sdp): map<int, int> {
    var all := s.payloads.list;
    var heard := if s.audio.has then AddTypes(map[], all, AUDIO, |all|) else map[];
    if s.video.has then AddTypes(heard, all, VIDEO, |all|) else heard
  }

  /** In a bundle the audio section lists the candidates of both media. */
  function CandidatesRead(s: Sdp): seq<Candidate> {
    (if s.audio.has then ReadCandidates(s.candidates, AUDIO, s.session.isBundle, |s.candidates|) else [])
    + (if s.video.has then ReadCandidates(s.candidates, VIDEO, false, |s.candidates|) else [])
  }

  function CryptosRead(s: Sdp): seq<Crypto> {
    (if s.audio.has then ReadCryptos(s.cryptos, AUDIO, |s.cryptos|) else [])
    + (if s.video.has then ReadCryptos(s.cryptos, VIDEO, |s.cryptos|) else [])
  }

  function SessionBack(s: Sdp): Session {
    Session(s.session.isBundle, TagsRead(s), s.session.isRtcpMux, s.session.isFingerprint,
            if s.session.isFingerprint then s.session.fingerprint else "", "", SAVPF)
  }

  /** The object before the credentials are shared and the feedback is mapped. */
  function Unfinished(s: Sdp, o: Options, a: Direction, v: Direction): Sdp {
    Sdp(SessionBack(s), AudioSide(s, a), VideoSide(s, v), Payloads(CodecsRead(s, o), TypesBack(s), TypesBack(s)),
        CandidatesRead(s), CryptosRead(s),
        VideoOnly(0, [], if s.video.has then s.extra.targetBandwidth else 0, 250, 120))
  }

  /** What a new SdpInfo holds after reading the text printed for s. */
  function Back(s: Sdp, o: Options, a: Direction, v: Direction): Sdp {
    var shared := ShareCredentials(Unfinished(s, o, a, v));
    shared.(candidates := SetCredentials(CandidatesRead(s), shared),
            payloads := Payloads(GiveFeedback(CodecsRead(s, o), SavedPairs(s, o)), TypesBack(s), TypesBack(s)))
  }

  lemma Concats<T>(a: seq<T>)
    ensures [] + a == a && a + [] == a
  {}

  lemma FeedbackRead(s: Sdp, o: Options, a: Direction, v: Direction, media: MediaType)
    ensures
      AllRead(Parse(NewSdp(a, v), media, -1, []), s, o).feedback == FeedbackLines(SavedPairs(s, o))
  {
    hide ReadSession, ReadCandidates, ReadCryptos, ReadPayloads, FirstSsrc, Count, FeedbackLines, AllPairs, NackPairs,
      NewTags, AudioUsername, AudioPassword, AudioSsrc;
    var nack := if s.audio.has then NackPairs(o) else [];
    var pairs := if s.video.has then AllPairs(s.payloads.list, VIDEO, |s.payloads.list|) else [];
    FeedbackLinesConcat(nack, pairs);
    LinesLength([]);
    Concats(FeedbackLines(nack));
    Concats(FeedbackLines(pairs));
  }

  lemma SectionsRead(s: Sdp, o: Options, a: Direction, v: Direction, media: MediaType)
    requires s.audio.has || s.video.has
    ensures AllRead(Parse(NewSdp(a, v), media, -1, []), s, o).sdp == Unfinished(s, o, a, v)
  {
    hide GroupPieces, TagIds, Marked, ReadCandidates, ReadCryptos, ReadList, AddTypes, AudioUsername, AudioPassword,
      AudioSsrc, FirstSsrc, Count, FeedbackLines, AllPairs, NackPairs, NewTags;
    Concats(ReadCandidates(s.candidates, AUDIO, s.session.isBundle, |s.candidates|));
    Concats(ReadCandidates(s.candidates, VIDEO, false, |s.candidates|));
    Concats(ReadCryptos(s.cryptos, AUDIO, |s.cryptos|));
    Concats(ReadCryptos(s.cryptos, VIDEO, |s.cryptos|));
    Concats(NewTags(GroupPieces(TagIds(s.session.bundleTags))));
  }

  lemma UsersPrinted(s: Sdp, o: Options, a: Direction, v: Direction)
    requires (s.audio.has || s.video.has) && CleanSdp(s, o)
    ensures Unfinished(s, o, a, v).audio.username != "" || Unfinished(s, o, a, v).video.username != ""
  {
    hide CleanLists, CleanSession, CleanExtra, GroupPieces, Marked, ReadList, AddTypes;
  }

  lemma SavedPairsClean(s: Sdp, o: Options)
    requires CleanLists(s)
    ensures CleanPairs(SavedPairs(s, o))
  {
    hide CleanCodec, AllPairs;
    AllPairsClean(s.payloads.list, VIDEO, |s.payloads.list|);
  }

  lemma ShareKeeps(s: Sdp)
    ensures ShareCredentials(s).payloads == s.payloads && ShareCredentials(s).candidates == s.candidates
  {}

  /** The whole state after reading back: processSdp accepts the text and Back is what it
      leaves. */
  lemma ReadBack(s: Sdp, o: Options, table: seq<RtpMap>, a: Direction, v: Direction, media: string)
    requires Faithful(s, o, table)
    ensures Process(NewSdp(a, v), table, Text(Items(s, o)), media) == Done(true, Back(s, o, a, v))
  {
    hide Items, Replay, AllRead, Unfinished, CleanLists, CleanSession, CleanExtra, Process, Text, GoodCodec, UniqueCodecs,
      SavedPairs, CodecsRead, TypesBack, CandidatesRead, ShareCredentials,
      SetCredentials, GiveFeedback, FeedbackLines, MapFeedback, CleanPairs;
    ItemsClean(s, o);
    var p := Parse(NewSdp(a, v), MediaOf(media), -1, []);
    ProcessOfText(NewSdp(a, v), table, Items(s, o), media);
    ReplayAll(p, table, s, o);
    SectionsRead(s, o, a, v, MediaOf(media));
    FeedbackRead(s, o, a, v, MediaOf(media));
    UsersPrinted(s, o, a, v);
    var u := Unfinished(s, o, a, v);
    var pairs := SavedPairs(s, o);
    SavedPairsClean(s, o);
    LinesLength(pairs);
    MapPairs(u.payloads.list, pairs, |pairs|);
    assert pairs[..|pairs|] == pairs;
    ShareKeeps(u);
    UnfinishedLists(s, o, a, v);
  }

  lemma UnfinishedLists(s: Sdp, o: Options, a: Direction, v: Direction)
    ensures Unfinished(s, o, a, v).candidates == CandidatesRead(s)
    ensures Unfinished(s, o, a, v).payloads.list == CodecsRead(s, o)
    ensures Unfinished(s, o, a, v).payloads.inOut == TypesBack(s) == Unfinished(s, o, a, v).payloads.outIn
  {
    hide SessionBack, AudioSide, VideoSide, CandidatesRead, TypesBack, CryptosRead, CodecsRead;
  }

  // ---------------------------------------------------------------- bundle tags

  predicate DistinctIds(tags: seq<BundleTag>) {
    forall i, j :: 0 <= i < j < |tags| ==> tags[i].id != tags[j].id
  }

  predicate Announced(s: Sdp, media: MediaType) {
    (media == AUDIO && s.audio.has) || (media == VIDEO && s.video.has)
  }

  lemma {:induction false} MarkedTags(own: seq<BundleTag>, tags: seq<BundleTag>, media: MediaType, n: nat, k: nat)
    requires n <= |tags| == |own| && k < |tags| && DistinctIds(tags)
    requires forall j :: 0 <= j < |own| ==> own[j].id == tags[j].id
    ensures
      Marked(own, tags, media, n)[k] == if k < n && tags[k].mediaType == media then tags[k] else own[k]
  {
    if n > 0 {
      MarkedTags(own, tags, media, n - 1, k);
      if k != n - 1 {
        assert tags[if k < n - 1 then k else n - 1].id != tags[if k < n - 1 then n - 1 else k].id;
      }
    }
  }

  /** The tags come back with the media types of the sections that are printed, as long as
      there are no more than the split of the group line keeps apart. */
  lemma TagsRestored(s: Sdp, k: nat)
    requires s.session.isBundle && DistinctIds(s.session.bundleTags) && |s.session.bundleTags| <= 9
    requires CleanSession(s.session) && k < |s.session.bundleTags|
    ensures |TagsRead(s)| == |s.session.bundleTags|
    ensures
      var tag := s.session.bundleTags[k];
      TagsRead(s)[k] == BundleTag(tag.id, if Announced(s, tag.mediaType) then tag.mediaType else OTHER)
  {
    hide GroupPieces, Marked, DistinctIds;
    var tags := s.session.bundleTags;
    GroupPiecesBound(TagIds(tags));
    var named := NewTags(TagIds(tags));
    var heard := if s.audio.has then Marked(named, tags, AUDIO, |tags|) else named;
    forall j | 0 <= j < |tags|
      ensures heard[j].id == tags[j].id
      ensures heard[j].mediaType == if s.audio.has && tags[j].mediaType == AUDIO then AUDIO else OTHER
    {
      MarkedTags(named, tags, AUDIO, |tags|, j);
    }
    MarkedTags(heard, tags, VIDEO, |tags|, k);
  }

  /** The bundle tags come back exactly when there are at most nine of them. */
  lemma BundleTagsRecoveredIff(s: Sdp, o: Options, table: seq<RtpMap>, a: Direction, v: Direction, media: string)
    requires Faithful(s, o, table) && s.session.isBundle && DistinctIds(s.session.bundleTags)
    requires forall k :: 0 <= k < |s.session.bundleTags| ==>
      s.session.bundleTags[k].mediaType == OTHER || Announced(s, s.session.bundleTags[k].mediaType)
    ensures
      var r := Process(NewSdp(a, v), table, Text(Items(s, o)), media);
      r.Done? && (r.sdp.session.bundleTags == s.session.bundleTags <==> |s.session.bundleTags| <= 9)
  {
    hide Process, Items, Text, CleanLists, CleanExtra, GoodCodecs, GroupPieces, Marked, DistinctIds, Unfinished;
    ReadBack(s, o, table, a, v, media);
    BackFields(s, o, a, v);
    var tags := s.session.bundleTags;
    TagCount(s);
    if |tags| <= 9 {
      forall k | 0 <= k < |tags|
        ensures TagsRead(s)[k] == tags[k]
      {
        TagsRestored(s, k);
      }
      assert TagsRead(s) == tags;
    }
  }

  lemma TagCount(s: Sdp)
    requires CleanSession(s.session) && s.session.isBundle
    ensures |TagsRead(s)| == if |s.session.bundleTags| <= 9 then |s.session.bundleTags| else 9
  {
    hide GroupPieces, Marked;
    GroupPiecesBound(TagIds(s.session.bundleTags));
  }

  lemma BackFields(s: Sdp, o: Options, a: Direction, v: Direction)
    ensures Back(s, o, a, v).session == SessionBack(s)
    ensures Back(s, o, a, v).payloads.list == GiveFeedback(CodecsRead(s, o), SavedPairs(s, o))
    ensures Back(s, o, a, v).candidates == SetCredentials(CandidatesRead(s), ShareCredentials(Unfinished(s, o, a, v)))
    ensures Back(s, o, a, v).audio.ssrc == AudioSide(s, a).ssrc && Back(s, o, a, v).video.ssrc == VideoSide(s, v).ssrc
    ensures Back(s, o, a, v).audio.direction == AudioSide(s, a).direction
    ensures Back(s, o, a, v).video.direction == VideoSide(s, v).direction
    ensures Back(s, o, a, v).audio.has == s.audio.has && Back(s, o, a, v).video.has == s.video.has
  {
    hide TagsRead, GiveFeedback, CodecsRead, SavedPairs, TypesBack, CandidatesRead, CryptosRead, SetCredentials,
      Count, AudioUsername, AudioPassword, AudioSsrc, VideoSsrc;
  }

  lemma BackUsers(s: Sdp, o: Options, a: Direction, v: Direction)
    requires (s.audio.has || s.video.has) && CleanSdp(s, o)
    ensures
      var b := Back(s, o, a, v);
      && (s.audio.has ==> b.audio.username == AudioUsername(s) && b.audio.password == AudioPassword(s))
      && (s.video.has ==> b.video.username == s.video.username && b.video.password == s.video.password)
  {
    hide TagsRead, GiveFeedback, CodecsRead, SavedPairs, TypesBack, CandidatesRead, CryptosRead, SetCredentials,
      Count, AudioSsrc, VideoSsrc, CleanLists, CleanSession, CleanExtra, Free;
  }

  // ---------------------------------------------------------------- codecs

  /** The codecs of the printed sections, audio first, without parameters and feedback. */
  function CodecKeys(s: Sdp): seq<RtpMap> {
    var all := s.payloads.list;
    (if s.audio.has then BaresOf(all, AUDIO, |all|) else []) + (if s.video.has then BaresOf(all, VIDEO, |all|) else [])
  }

  lemma KeysRead(s: Sdp, o: Options)
    ensures Bares(GiveFeedback(CodecsRead(s, o), SavedPairs(s, o))) == CodecKeys(s)
  {
    hide GiveFeedback, SavedPairs, Bares, BaresOf, ReadList;
    var all := s.payloads.list;
    GiveKeepsBares(CodecsRead(s, o), SavedPairs(s, o));
    NoBares();
    ReadListBares([], all, AUDIO, s.extra.minBitrate, o, |all|);
    var heard := if s.audio.has then ReadList([], all, AUDIO, s.extra.minBitrate, o, |all|) else [];
    ReadListBares(heard, all, VIDEO, s.extra.minBitrate, o, |all|);
  }

  lemma NoBares()
    ensures Bares([]) == []
  {}

  /** The round trip for every description with clean tokens and codecs of the internal
      table: bundle and rtcp-mux flags, fingerprint, directions, ICE credentials, SSRCs and
      the codec list (payload type, name, clock rate, medium, channels). */
  lemma RoundTrip(s: Sdp, o: Options, encoding: Encoding, redFec: bool, a: Direction, v: Direction, media: string)
    requires (s.audio.has || s.video.has) && CleanSdp(s, o)
    requires forall k :: 0 <= k < |s.payloads.list| ==> InTable(InternalTable(encoding, redFec), s.payloads.list[k])
    ensures
      var r := Process(NewSdp(a, v), InternalTable(encoding, redFec), Text(Items(s, o)), media);
      && r.Done? && r.ok
      && var b := r.sdp;
      && b.audio.has == s.audio.has && b.video.has == s.video.has
      && b.session.isBundle == s.session.isBundle && b.session.isRtcpMux == s.session.isRtcpMux
      && b.session.profile == SAVPF
      && b.session.isFingerprint == s.session.isFingerprint
      && (s.session.isFingerprint ==> b.session.fingerprint == s.session.fingerprint)
      && (s.audio.has ==>
            && b.audio.direction == s.audio.direction && b.audio.ssrc == AudioSsrc(s)
            && b.audio.username == AudioUsername(s) && b.audio.password == AudioPassword(s))
      && (s.video.has ==>
            && b.video.direction == s.video.direction && b.video.ssrc == VideoSsrc(s)
            && b.video.username == s.video.username && b.video.password == s.video.password)
      && Bares(b.payloads.list) == CodecKeys(s)
  {
    hide Process, Items, Text, InternalTable, InTable, Back, CleanLists, CleanSession, CleanExtra, TagsRead,
      GiveFeedback, CodecsRead, Unfinished, UniqueCodecs, CodecKeys;
    InternalTableIsUnique(encoding, redFec);
    TypesAreSmall(s, o);
    ReadBack(s, o, InternalTable(encoding, redFec), a, v, media);
    BackFields(s, o, a, v);
    BackUsers(s, o, a, v);
    KeysRead(s, o);
  }

  lemma TypesAreSmall(s: Sdp, o: Options)
    requires CleanSdp(s, o)
    ensures forall k :: 0 <= k < |s.payloads.list| ==> s.payloads.list[k].payloadType < INT
  {
    hide CleanSession, CleanExtra, CleanCandidate, Clean;
  }

  function CodecsBack(s: Sdp, o: Options): seq<RtpMap> {
    var all := s.payloads.list;
    (if s.audio.has then RecoveredCodecs(all, AUDIO, s.extra.minBitrate, o, |all|) else [])
    + (if s.video.has then RecoveredCodecs(all, VIDEO, s.extra.minBitrate, o, |all|) else [])
  }

  lemma CodecsReadIs(s: Sdp, o: Options)
    requires DistinctTypes(s.payloads.list)
    requires forall k :: 0 <= k < |s.payloads.list| ==> Ascending(s.payloads.list[k].formatParameters)
    ensures
      var all := s.payloads.list;
      CodecsRead(s, o)
      == (if s.audio.has then ReadCodecs(all, AUDIO, s.extra.minBitrate, o, |all|) else [])
         + (if s.video.has then ReadCodecs(all, VIDEO, s.extra.minBitrate, o, |all|) else [])
  {
    hide ReadList, ReadCodecs, DistinctTypes, AllUnused, Ascending;
    var all := s.payloads.list;
    NothingUsed(all, AUDIO);
    NothingUsed(all, VIDEO);
    AudioLeavesVideo(all, s.extra.minBitrate, o);
    ReadListIs([], all, AUDIO, s.extra.minBitrate, o, |all|);
    Concats(ReadCodecs(all, AUDIO, s.extra.minBitrate, o, |all|));
    var heard := if s.audio.has then ReadCodecs(all, AUDIO, s.extra.minBitrate, o, |all|) else [];
    ReadListIs(heard, all, VIDEO, s.extra.minBitrate, o, |all|);
  }

  lemma CodecsGiven(s: Sdp, o: Options)
    requires DistinctTypes(s.payloads.list) && NackIsAudio(s.payloads.list)
    requires forall k :: 0 <= k < |s.payloads.list| ==> Ascending(s.payloads.list[k].formatParameters)
    ensures GiveFeedback(CodecsRead(s, o), SavedPairs(s, o)) == CodecsBack(s, o)
  {
    hide Received, GiveFeedback, ReadCodecs, RecoveredCodecs, FeedbackOf, SavedPairs, DistinctTypes, NackIsAudio,
      CodecsRead, Ascending;
    var all, pairs := s.payloads.list, SavedPairs(s, o);
    CodecsReadIs(s, o);
    forall k | 0 <= k < |all| && Announced(s, all[k].mediaType)
      ensures Received(pairs, all[k].payloadType) == FeedbackOf(all[k], o)
    {
      SavedForCodec(s, o, k);
    }
    GiveToNone(pairs);
    var heard := if s.audio.has then ReadCodecs(all, AUDIO, s.extra.minBitrate, o, |all|) else [];
    var seen := if s.video.has then ReadCodecs(all, VIDEO, s.extra.minBitrate, o, |all|) else [];
    GiveConcat(heard, seen, pairs);
    if s.audio.has {
      GiveToAll(all, AUDIO, s.extra.minBitrate, o, pairs, |all|);
    }
    if s.video.has {
      GiveToAll(all, VIDEO, s.extra.minBitrate, o, pairs, |all|);
    }
  }

  lemma TableNack(encoding: Encoding, redFec: bool, payloads: seq<RtpMap>)
    requires forall k :: 0 <= k < |payloads| ==> InTable(InternalTable(encoding, redFec), payloads[k])
    ensures NackIsAudio(payloads)
  {
    hide InternalTable;
    var table := InternalTable(encoding, redFec);
    TableVideo(encoding, redFec);
    forall k | 0 <= k < |payloads| && payloads[k].mediaType == VIDEO
      ensures payloads[k].payloadType != 111
    {
      var j :| 0 <= j < |table| && SameCodec(table[j], payloads[k]) && table[j].payloadType == payloads[k].payloadType
               && table[j].channels == payloads[k].channels && table[j].mediaType == payloads[k].mediaType;
      assert table[j] in table;
    }
  }

  lemma TableVideo(encoding: Encoding, redFec: bool)
    ensures forall r :: r in InternalTable(encoding, redFec) && r.mediaType == VIDEO ==> r.payloadType != 111
  {
    hide VideoEntries, AudioEntries;
    VideoEntriesAreUnique(encoding, redFec);
    AudioEntriesAreUnique();
  }

  /** With payload types of their own, the codecs come back with the parameters printed for
      them, the video ones with their feedback too. */
  lemma CodecsRestored(s: Sdp, o: Options, encoding: Encoding, redFec: bool, a: Direction, v: Direction, media: string)
    requires (s.audio.has || s.video.has) && CleanSdp(s, o) && DistinctTypes(s.payloads.list)
    requires forall k :: 0 <= k < |s.payloads.list| ==>
      InTable(InternalTable(encoding, redFec), s.payloads.list[k]) && Ascending(s.payloads.list[k].formatParameters)
    ensures
      var r := Process(NewSdp(a, v), InternalTable(encoding, redFec), Text(Items(s, o)), media);
      r.Done? && r.ok && r.sdp.payloads.list == CodecsBack(s, o)
  {
    hide Process, Items, Text, InternalTable, InTable, Back, CleanLists, CleanSession, CleanExtra, CodecsBack,
      GiveFeedback, CodecsRead, Unfinished, UniqueCodecs, DistinctTypes, Ascending;
    InternalTableIsUnique(encoding, redFec);
    TypesAreSmall(s, o);
    TableNack(encoding, redFec, s.payloads.list);
    ReadBack(s, o, InternalTable(encoding, redFec), a, v, media);
    BackFields(s, o, a, v);
    CodecsGiven(s, o);
  }

  // ---------------------------------------------------------------- shared payload types

  function AudioPrinted(s: Sdp): seq<RtpMap> {
    if s.audio.has then PrintedOf(s.payloads.list, AUDIO, |s.payloads.list|) else []
  }

  /** The codecs of the printed sections, in the order of their lines. */
  function Printed(s: Sdp): seq<RtpMap> {
    AudioPrinted(s) + if s.video.has then PrintedOf(s.payloads.list, VIDEO, |s.payloads.list|) else []
  }

  lemma ValuesRead(s: Sdp, o: Options)
    ensures ValuesFrom(CodecsRead(s, o), Printed(s), s.extra.minBitrate, o)
  {
    hide ReadList, PrintedOf, Given, ValueAt;
    var all := s.payloads.list;
    Concats(PrintedOf(all, AUDIO, |all|));
    ReadListValues([], [], all, AUDIO, s.extra.minBitrate, o, |all|);
    var heard := if s.audio.has then ReadList([], all, AUDIO, s.extra.minBitrate, o, |all|) else [];
    ReadListValues(heard, AudioPrinted(s), all, VIDEO, s.extra.minBitrate, o, |all|);
    Concats(AudioPrinted(s));
  }

  lemma GiveKeepsValues(list: seq<RtpMap>, pairs: seq<(nat, string)>, printed: seq<RtpMap>, minBitrate: nat, o: Options)
    requires ValuesFrom(list, printed, minBitrate, o)
    ensures ValuesFrom(GiveFeedback(list, pairs), printed, minBitrate, o)
  {
    hide Received, Given, ValueAt;
  }

  /** Whatever the payload types and the parameters: every codec comes back with exactly the
      values printed for its payload type by itself and the codecs after it, the last one of
      each key. */
  lemma ParametersReadBack(s: Sdp, o: Options, encoding: Encoding, redFec: bool, a: Direction, v: Direction, media: string)
    requires (s.audio.has || s.video.has) && CleanSdp(s, o)
    requires forall k :: 0 <= k < |s.payloads.list| ==> InTable(InternalTable(encoding, redFec), s.payloads.list[k])
    ensures
      var r := Process(NewSdp(a, v), InternalTable(encoding, redFec), Text(Items(s, o)), media);
      r.Done? && r.ok && ValuesFrom(r.sdp.payloads.list, Printed(s), s.extra.minBitrate, o)
  {
    hide Process, Items, Text, InternalTable, InTable, Back, CleanLists, CleanSession, CleanExtra, TagsRead,
      GiveFeedback, CodecsRead, Unfinished, UniqueCodecs, ValuesFrom, Printed;
    InternalTableIsUnique(encoding, redFec);
    TypesAreSmall(s, o);
    ReadBack(s, o, InternalTable(encoding, redFec), a, v, media);
    BackFields(s, o, a, v);
    ValuesRead(s, o);
    GiveKeepsValues(CodecsRead(s, o), SavedPairs(s, o), Printed(s), s.extra.minBitrate, o);
  }

  /** Does a printed video codec have the payload type of codec k? */
  predicate SharedWithVideo(printed: seq<RtpMap>, k: nat)
    requires k < |printed|
  {
    exists j :: 0 <= j < |printed| && printed[j].mediaType == VIDEO && printed[j].payloadType == printed[k].payloadType
  }

  lemma PrintedParts(s: Sdp, k: nat)
    requires k < |Printed(s)| && Printed(s)[k].mediaType == AUDIO
    ensures k < |AudioPrinted(s)|
    ensures forall j :: 0 <= j < |AudioPrinted(s)| ==> Printed(s)[j].mediaType == AUDIO
    ensures forall j :: |AudioPrinted(s)| <= j < |Printed(s)| ==> Printed(s)[j].mediaType == VIDEO
  {
    hide PrintedOf;
    var all := s.payloads.list;
    PrintedMedia(all, AUDIO, |all|);
    PrintedMedia(all, VIDEO, |all|);
  }

  /** The bit rate parameter is printed for video only. An audio codec comes back with it
      when a printed video codec shares its payload type; if none does, with no more than the
      audio codecs say themselves. */
  lemma BitrateSharedIff(s: Sdp, o: Options, encoding: Encoding, redFec: bool, a: Direction, v: Direction, media: string, k: nat)
    requires (s.audio.has || s.video.has) && CleanSdp(s, o) && o.setMinBitrate
    requires forall j :: 0 <= j < |s.payloads.list| ==> InTable(InternalTable(encoding, redFec), s.payloads.list[j])
    requires k < |Printed(s)| && Printed(s)[k].mediaType == AUDIO
    ensures
      var r := Process(NewSdp(a, v), InternalTable(encoding, redFec), Text(Items(s, o)), media);
      && r.Done? && r.ok && k < |r.sdp.payloads.list| && k < |AudioPrinted(s)|
      && var rate := ValueAt(r.sdp.payloads.list[k].formatParameters, MIN_BITRATE);
      var audio := AudioPrinted(s);
      && rate == (if SharedWithVideo(Printed(s), k) then Some(Dec(s.extra.minBitrate))
                  else Given(audio, |audio|, k, MIN_BITRATE, s.extra.minBitrate, o))
      && ((forall j :: 0 <= j < |audio| ==> LastValue(audio[j].formatParameters, |audio[j].formatParameters|, MIN_BITRATE).None?)
          ==> (rate.Some? <==> SharedWithVideo(Printed(s), k)))
  {
    hide Process, Items, Text, InTable, InternalTable, CleanSdp, PrintedOf, Dec, LastValue, ValueAt, Given;
    ParametersReadBack(s, o, encoding, redFec, a, v, media);
    PrintedParts(s, k);
    var audio, printed := AudioPrinted(s), Printed(s);
    GivenBitrate(printed, |audio|, |printed|, k, s.extra.minBitrate, o);
    GivenPrefix(audio, printed[|audio|..], |audio|, k, MIN_BITRATE, s.extra.minBitrate, o);
    assert audio + printed[|audio|..] == printed;
    if forall j :: 0 <= j < |audio| ==> LastValue(audio[j].formatParameters, |audio[j].formatParameters|, MIN_BITRATE).None? {
      GivenNone(audio, |audio|, k, MIN_BITRATE, s.extra.minBitrate, o);
    }
  }

  /** In the table only CN/48000 and H264 share a payload type across the media. */
  lemma SharedTypesAre(encoding: Encoding, redFec: bool, r: RtpMap, w: RtpMap)
    requires InTable(InternalTable(encoding, redFec), r) && InTable(InternalTable(encoding, redFec), w)
    requires r.mediaType == AUDIO && w.mediaType == VIDEO
    ensures
      r.payloadType == w.payloadType
      <==> r.encodingName == "CN" && r.clockRate == 48000 && w.encodingName == "H264"
  {
  }

  /** The feedback lines of the two sections give every codec what is asked for its payload
      type: the audio section asks for 111 only. */
  function FeedbackFor(s: Sdp, o: Options, pt: nat): seq<string> {
    (if s.audio.has && o.audioNack && pt == 111 then ["nack"] else []) + Asked(Printed(s), |Printed(s)|, pt)
  }

  lemma SavedIsFeedback(s: Sdp, o: Options, pt: nat)
    ensures Received(SavedPairs(s, o), pt) == FeedbackFor(s, o, pt)
  {
    hide Received, AllPairs, Asked, PrintedOf;
    var all := s.payloads.list;
    var nack := if s.audio.has then NackPairs(o) else [];
    var video := if s.video.has then PrintedOf(all, VIDEO, |all|) else [];
    ReceivedConcat(nack, if s.video.has then AllPairs(all, VIDEO, |all|) else [], pt);
    ReceivedEmpty(pt);
    ReceivedSnoc([], (111, "nack"), pt);
    assert [] + [(111 as nat, "nack")] == [(111, "nack")];
    ReceivedIsAsked(all, |all|, pt);
    PrintedMedia(all, AUDIO, |all|);
    AskedByAudio(AudioPrinted(s), |AudioPrinted(s)|, pt);
    AskedConcat(AudioPrinted(s), video, pt, |video|);
    AskedByAudio([], 0, pt);
  }

  lemma NoFeedbackRead(s: Sdp, o: Options)
    ensures NoFeedback(CodecsRead(s, o))
  {
    hide ReadList;
    var all := s.payloads.list;
    ReadListNoFeedback([], all, AUDIO, s.extra.minBitrate, o, |all|);
    var heard := if s.audio.has then ReadList([], all, AUDIO, s.extra.minBitrate, o, |all|) else [];
    ReadListNoFeedback(heard, all, VIDEO, s.extra.minBitrate, o, |all|);
  }

  lemma FeedbackGiven(list: seq<RtpMap>, s: Sdp, o: Options)
    requires NoFeedback(list) && ValuesFrom(list, Printed(s), s.extra.minBitrate, o)
    ensures |list| == |Printed(s)|
    ensures forall k :: 0 <= k < |list| ==>
      GiveFeedback(list, SavedPairs(s, o))[k].feedbackTypes == FeedbackFor(s, o, Printed(s)[k].payloadType)
  {
    hide Received, SavedPairs, FeedbackFor, Printed, ValueAt, Given;
    forall k | 0 <= k < |list|
      ensures GiveFeedback(list, SavedPairs(s, o))[k].feedbackTypes == FeedbackFor(s, o, Printed(s)[k].payloadType)
    {
      SavedIsFeedback(s, o, list[k].payloadType);
    }
  }

  /** Whatever the payload types: every codec comes back with exactly the feedback printed
      for its payload type, that of other codecs included. */
  lemma FeedbackReadBack(s: Sdp, o: Options, encoding: Encoding, redFec: bool, a: Direction, v: Direction, media: string)
    requires (s.audio.has || s.video.has) && CleanSdp(s, o)
    requires forall k :: 0 <= k < |s.payloads.list| ==> InTable(InternalTable(encoding, redFec), s.payloads.list[k])
    ensures
      var r := Process(NewSdp(a, v), InternalTable(encoding, redFec), Text(Items(s, o)), media);
      && r.Done? && r.ok && |r.sdp.payloads.list| == |Printed(s)|
      && forall k :: 0 <= k < |Printed(s)| ==>
           r.sdp.payloads.list[k].feedbackTypes == FeedbackFor(s, o, Printed(s)[k].payloadType)
  {
    hide Process, Items, Text, InternalTable, InTable, Back, CleanLists, CleanSession, CleanExtra, TagsRead,
      CodecsRead, Unfinished, UniqueCodecs, ValuesFrom, Printed, FeedbackFor, SavedPairs, Received;
    InternalTableIsUnique(encoding, redFec);
    TypesAreSmall(s, o);
    ReadBack(s, o, InternalTable(encoding, redFec), a, v, media);
    BackFields(s, o, a, v);
    ValuesRead(s, o);
    NoFeedbackRead(s, o);
    FeedbackGiven(CodecsRead(s, o), s, o);
  }

  // A description that offers CN/48000 and H264.
  const CN_48000 := RtpMap(107, "CN", 48000, AUDIO, 1, [], [])
  const H264_90000 := RtpMap(107, "H264", 90000, VIDEO, 1, ["ccm fir"], [])

  function Offer(): Sdp {
    NewSdp(SENDRECV, SENDRECV).(
      audio := Side(true, 0, SENDRECV, "u", "p", 1, 1), video := Side(true, 1, SENDRECV, "u", "p", 2, 1),
      payloads := Payloads([CN_48000, H264_90000], map[], map[]))
  }

  lemma OfferInTable(redFec: bool)
    ensures InTable(InternalTable(H264, redFec), CN_48000) && InTable(InternalTable(H264, redFec), H264_90000)
  {
    var video, table := VideoEntries(H264, redFec), InternalTable(H264, redFec);
    assert SameCodec(table[0], H264_90000);
    assert table[|video| + 7] == AudioEntries()[7];
    assert SameCodec(table[|video| + 7], CN_48000);
  }

  lemma OfferIsClean(o: Options)
    requires Free(o.msid, LINE_ENDS)
    ensures CleanSdp(Offer(), o)
  {}

  lemma OfferPrinted()
    ensures Printed(Offer()) == [CN_48000, H264_90000]
    ensures CodecKeys(Offer()) == [CN_48000, Bare(H264_90000)]
  {
    var all := Offer().payloads.list;
    assert PrintedOf(all, AUDIO, 2) == [CN_48000] && PrintedOf(all, VIDEO, 2) == [H264_90000];
    assert BaresOf(all, AUDIO, 2) == [CN_48000] && BaresOf(all, VIDEO, 2) == [Bare(H264_90000)];
  }

  lemma OfferFeedback(o: Options)
    requires Printed(Offer()) == [CN_48000, H264_90000]
    ensures FeedbackFor(Offer(), o, 107) == ["ccm fir"]
  {
    hide Printed;
    var printed := [CN_48000, H264_90000];
    assert Asked(printed, 0, 107) == [] && Asked(printed, 1, 107) == [];
    assert Asked(printed, 2, 107) == ["ccm fir"];
  }

  /** Comfort noise has neither parameters nor feedback in the offer, and comes back with the
      bit rate and the feedback of the video codec. */
  lemma ComfortNoiseGetsVideo(o: Options, redFec: bool, media: string)
    requires o.setMinBitrate && Free(o.msid, LINE_ENDS)
    ensures
      var r := Process(NewSdp(SENDRECV, SENDRECV), InternalTable(H264, redFec), Text(Items(Offer(), o)), media);
      && r.Done? && r.ok && |r.sdp.payloads.list| == 2 && Bare(r.sdp.payloads.list[0]) == CN_48000
      && ValueAt(r.sdp.payloads.list[0].formatParameters, MIN_BITRATE) == Some("120")
      && r.sdp.payloads.list[0].feedbackTypes == ["ccm fir"]
  {
    hide Process, Items, Text, InternalTable, InTable, CleanSdp, CodecKeys, Printed, AudioPrinted, ValueAt, Given, FeedbackFor;
    var s := Offer();
    OfferInTable(redFec);
    OfferIsClean(o);
    OfferPrinted();
    OfferFeedback(o);
    RoundTrip(s, o, H264, redFec, SENDRECV, SENDRECV, media);
    BitrateSharedIff(s, o, H264, redFec, SENDRECV, SENDRECV, media, 0);
    FeedbackReadBack(s, o, H264, redFec, SENDRECV, SENDRECV, media);
    assert SharedWithVideo([CN_48000, H264_90000], 0) by {
      assert [CN_48000, H264_90000][1].mediaType == VIDEO;
    }
    assert Dec(120) == "120";
    var r := Process(NewSdp(SENDRECV, SENDRECV), InternalTable(H264, redFec), Text(Items(s, o)), media);
    assert Bares(r.sdp.payloads.list)[0] == CN_48000;
  }

  // ---------------------------------------------------------------- what does not come back

  lemma {:induction false} FirstSsrcIs(own: nat, ssrcs: seq<nat>, n: nat)
    requires n <= |ssrcs|
    ensures FirstSsrc(own, ssrcs, n) == own <==> own != 0 || forall k :: 0 <= k < n ==> ssrcs[k] == 0
    ensures own == 0 && (exists k :: 0 <= k < n && ssrcs[k] != 0) ==> FirstSsrc(own, ssrcs, n) != 0
  {
    if n > 0 {
      FirstSsrcIs(own, ssrcs, n - 1);
    }
  }

  /** The own video SSRC comes back exactly when it is set or no other one is printed;
      otherwise the first of the others takes its place. */
  lemma VideoSsrcRecoveredIff(s: Sdp, o: Options, table: seq<RtpMap>, a: Direction, v: Direction, media: string)
    requires Faithful(s, o, table) && s.video.has
    ensures
      var r := Process(NewSdp(a, v), table, Text(Items(s, o)), media);
      && r.Done?
      && (r.sdp.video.ssrc == s.video.ssrc
          <==> s.video.ssrc != 0 || (s.extra.rtxSsrc == 0 && forall k :: 0 <= k < |s.extra.extendedSsrc| ==> s.extra.extendedSsrc[k] == 0))
  {
    hide Process, Items, Text, Back, Unfinished, FirstSsrc, SessionBack, CandidatesRead, CodecsRead;
    ReadBack(s, o, table, a, v, media);
    BackFields(s, o, a, v);
    FirstSsrcIs(s.video.ssrc, s.extra.extendedSsrc, |s.extra.extendedSsrc|);
  }

  function VideoCount(candidates: seq<Candidate>, n: nat): nat
    requires n <= |candidates|
  {
    if n == 0 then 0 else VideoCount(candidates, n - 1) + if candidates[n - 1].mediaType == VIDEO then 1 else 0
  }

  predicate UdpOnly(candidates: seq<Candidate>) {
    forall k :: 0 <= k < |candidates| ==> Udp(candidates[k].netProtocol) && candidates[k].mediaType != OTHER
  }

  lemma {:induction false} CandidateCount(candidates: seq<Candidate>, all: bool, n: nat)
    requires n <= |candidates| && UdpOnly(candidates)
    ensures
      |ReadCandidates(candidates, AUDIO, all, n)| + |ReadCandidates(candidates, VIDEO, false, n)|
      == n + if all then VideoCount(candidates, n) else 0
  {
    hide Restored, Udp;
    if n > 0 {
      CandidateCount(candidates, all, n - 1);
    }
  }

  lemma VideoCountZero(candidates: seq<Candidate>, n: nat)
    requires n <= |candidates|
    ensures VideoCount(candidates, n) == 0 <==> forall k :: 0 <= k < n ==> candidates[k].mediaType != VIDEO
  {}

  /** With both sections, as many UDP candidates come back as there are exactly when the
      description is no bundle or has no video candidate: a bundle prints those twice. */
  lemma CandidatesDoubledIff(s: Sdp, o: Options, table: seq<RtpMap>, a: Direction, v: Direction, media: string)
    requires Faithful(s, o, table) && s.audio.has && s.video.has && UdpOnly(s.candidates)
    ensures
      var r := Process(NewSdp(a, v), table, Text(Items(s, o)), media);
      && r.Done?
      && |r.sdp.candidates| == |s.candidates| + (if s.session.isBundle then VideoCount(s.candidates, |s.candidates|) else 0)
      && (|r.sdp.candidates| == |s.candidates|
          <==> !s.session.isBundle || forall k :: 0 <= k < |s.candidates| ==> s.candidates[k].mediaType != VIDEO)
  {
    hide Process, Items, Text, Back, Unfinished, ReadCandidates, SessionBack, CodecsRead, VideoCount, UdpOnly;
    ReadBack(s, o, table, a, v, media);
    BackFields(s, o, a, v);
    CandidateCount(s.candidates, s.session.isBundle, |s.candidates|);
    VideoCountZero(s.candidates, |s.candidates|);
  }
}
