/** The round trip field by field: what a new object holds after reading a printed text,
    told from the fields of the description alone (orbit/sdp_info.cc:302-566, 728-1058). */
module SdpFields {
  import opened Common
  import opened SdpText
  import opened Candidates
  import opened SdpState
  import opened SdpPrint
  import opened SdpLines
  import opened SdpEffects
  import opened SdpClean
  import opened SdpSections
  import opened SdpCodecs
  import opened SdpRoundTrip
  import opened SdpTheorems

  // ---------------------------------------------------------------- told from the description

  /** Without an audio user the audio section carries the credentials of the video. */
  function AudioCredentials(s: Sdp): (string, string) {
    if s.audio.username != "" then (s.audio.username, s.audio.password) else (s.video.username, s.video.password)
  }

  function FirstNonzero(xs: seq<nat>): nat {
    if xs == [] then 0 else if xs[0] != 0 then xs[0] else FirstNonzero(xs[1..])
  }

  /** The audio side: a section that is not printed leaves only shared credentials. */
  function AudioTold(s: Sdp, direction: Direction): Side {
    if s.audio.has then
      Side(true, 0, s.audio.direction, AudioCredentials(s).0, AudioCredentials(s).1,
           if s.audio.ssrc == 0 then 44444 else s.audio.ssrc, |PrintedOf(s.payloads.list, AUDIO, |s.payloads.list|)|)
    else Side(false, -1, direction, s.video.username, s.video.password, 0, 0)
  }

  function VideoTold(s: Sdp, direction: Direction): Side {
    if s.video.has then
      Side(true, if s.audio.has then 1 else 0, s.video.direction, s.video.username, s.video.password,
           FirstNonzero([s.video.ssrc] + s.extra.extendedSsrc + [s.extra.rtxSsrc]),
           |PrintedOf(s.payloads.list, VIDEO, |s.payloads.list|)|)
    else Side(false, -1, direction, AudioCredentials(s).0, AudioCredentials(s).1, 0, 0)
  }

  /** A candidate of a section, with the credentials of its medium. */
  function CandidateTold(s: Sdp, c: Candidate, media: MediaType): Candidate {
    var related := c.hostType == SRFLX || c.hostType == RELAY;
    var user := if media == AUDIO then AudioCredentials(s) else (s.video.username, s.video.password);
    Candidate(c.foundation, c.componentId, c.netProtocol, c.priority, c.hostAddress, c.hostPort, c.hostType,
              if related then c.rAddress else "", if related then c.rPort else 0, media, s.session.isBundle, user.0, user.1)
  }

  /** The audio section of a bundle lists the candidates of every medium; only UDP ones are read. */
  function CandidatesTold(s: Sdp, media: MediaType, n: nat): seq<Candidate>
    requires n <= |s.candidates|
  {
    if n == 0 then [] else
      var c := s.candidates[n - 1];
      CandidatesTold(s, media, n - 1)
      + if (c.mediaType == media || (media == AUDIO && s.session.isBundle)) && (c.netProtocol == "UDP" || c.netProtocol == "udp")
        then [CandidateTold(s, c, media)] else []
  }

  function CryptosTold(s: Sdp, media: MediaType, n: nat): seq<Crypto>
    requires n <= |s.cryptos|
  {
    if n == 0 then [] else
      var c := s.cryptos[n - 1];
      CryptosTold(s, media, n - 1) + if c.mediaType == media then [Crypto(0, c.cipherSuite, c.keyParams, media)] else []
  }

  // ---------------------------------------------------------------- the proofs

  lemma {:induction false} CountIsPrinted(payloads: seq<RtpMap>, media: MediaType, n: nat)
    requires n <= |payloads|
    ensures Count(payloads, media, n) == |PrintedOf(payloads, media, n)|
  {
    if n > 0 {
      CountIsPrinted(payloads, media, n - 1);
    }
  }

  lemma {:induction false} FirstNonzeroSnoc(xs: seq<nat>, x: nat)
    ensures FirstNonzero(xs + [x]) == if FirstNonzero(xs) != 0 then FirstNonzero(xs) else x
  {
    if xs == [] {
      assert [x][1..] == [];
    } else {
      assert (xs + [x])[1..] == xs[1..] + [x];
      FirstNonzeroSnoc(xs[1..], x);
    }
  }

  lemma {:induction false} SsrcIsFirst(own: nat, ssrcs: seq<nat>, n: nat)
    requires n <= |ssrcs|
    ensures FirstSsrc(own, ssrcs, n) == FirstNonzero([own] + ssrcs[..n])
  {
    if n == 0 {
      assert [own] + ssrcs[..0] == [own] && [own][1..] == [];
    } else {
      SsrcIsFirst(own, ssrcs, n - 1);
      FirstNonzeroSnoc([own] + ssrcs[..n - 1], ssrcs[n - 1]);
      assert [own] + ssrcs[..n] == [own] + ssrcs[..n - 1] + [ssrcs[n - 1]];
    }
  }

  lemma VideoSsrcIs(s: Sdp)
    ensures VideoSsrc(s) == FirstNonzero([s.video.ssrc] + s.extra.extendedSsrc + [s.extra.rtxSsrc])
  {
    var xs := s.extra.extendedSsrc;
    SsrcIsFirst(s.video.ssrc, xs, |xs|);
    assert xs[..|xs|] == xs;
    FirstNonzeroSnoc([s.video.ssrc] + xs, s.extra.rtxSsrc);
  }

  lemma SidesAre(s: Sdp, o: Options, a: Direction, v: Direction)
    requires (s.audio.has || s.video.has) && CleanSdp(s, o)
    ensures Back(s, o, a, v).audio == AudioTold(s, a) && Back(s, o, a, v).video == VideoTold(s, v)
    ensures Back(s, o, a, v).extra
         == VideoOnly(0, [], if s.video.has then s.extra.targetBandwidth else 0, 250, 120)
    ensures Back(s, o, a, v).cryptos == CryptosRead(s)
  {
    hide TagsRead, GiveFeedback, CodecsRead, SavedPairs, TypesBack, CandidatesRead, CryptosRead, SetCredentials,
      Count, PrintedOf, FirstNonzero, VideoSsrc, CleanLists, CleanSession, CleanExtra, Free;
    var all := s.payloads.list;
    CountIsPrinted(all, AUDIO, |all|);
    CountIsPrinted(all, VIDEO, |all|);
    VideoSsrcIs(s);
  }

  lemma {:induction false} CryptosAre(s: Sdp, media: MediaType, n: nat)
    requires n <= |s.cryptos|
    ensures ReadCryptos(s.cryptos, media, n) == CryptosTold(s, media, n)
  {
    if n > 0 {
      CryptosAre(s, media, n - 1);
    }
  }

  lemma CredentialsConcat(x: seq<Candidate>, y: seq<Candidate>, s: Sdp)
    ensures SetCredentials(x + y, s) == SetCredentials(x, s) + SetCredentials(y, s)
  {
    hide Credentials;
  }

  lemma {:induction false} CandidatesAre(s: Sdp, shared: Sdp, media: MediaType, n: nat)
    requires n <= |s.candidates| && media != OTHER && shared.session.isBundle == s.session.isBundle
    requires media == AUDIO ==> (shared.audio.username, shared.audio.password) == AudioCredentials(s)
    requires media == VIDEO ==> shared.video.username == s.video.username && shared.video.password == s.video.password
    ensures
      SetCredentials(ReadCandidates(s.candidates, media, media == AUDIO && s.session.isBundle, n), shared)
      == CandidatesTold(s, media, n)
  {
    hide SetCredentials, AudioCredentials;
    var all := media == AUDIO && s.session.isBundle;
    if n == 0 {
      NoCandidates(shared);
    } else {
      CandidatesAre(s, shared, media, n - 1);
      var c := s.candidates[n - 1];
      var before := ReadCandidates(s.candidates, media, all, n - 1);
      if Listed(c, media, all) && Udp(c.netProtocol) {
        CredentialsConcat(before, [Restored(c, Blank(media))], shared);
        OneCandidate(s, shared, c, media);
      } else {
        assert before + [] == before;
      }
    }
  }

  lemma NoCandidates(s: Sdp)
    ensures SetCredentials([], s) == []
  {}

  lemma OneCandidate(s: Sdp, shared: Sdp, c: Candidate, media: MediaType)
    requires media != OTHER && shared.session.isBundle == s.session.isBundle
    requires media == AUDIO ==> (shared.audio.username, shared.audio.password) == AudioCredentials(s)
    requires media == VIDEO ==> shared.video.username == s.video.username && shared.video.password == s.video.password
    ensures SetCredentials([Restored(c, Blank(media))], shared) == [CandidateTold(s, c, media)]
  {}

  lemma SharedSides(s: Sdp, o: Options, a: Direction, v: Direction)
    requires (s.audio.has || s.video.has) && CleanSdp(s, o)
    ensures
      var shared := ShareCredentials(Unfinished(s, o, a, v));
      && shared.session.isBundle == s.session.isBundle
      && (s.audio.has ==> (shared.audio.username, shared.audio.password) == AudioCredentials(s))
      && (s.video.has ==> shared.video.username == s.video.username && shared.video.password == s.video.password)
  {
    hide TagsRead, CodecsRead, SavedPairs, TypesBack, CandidatesRead, CryptosRead,
      Count, VideoSsrc, CleanLists, CleanSession, CleanExtra, Free;
  }

  lemma CandidatesBack(s: Sdp, o: Options, a: Direction, v: Direction)
    requires (s.audio.has || s.video.has) && CleanSdp(s, o)
    ensures
      Back(s, o, a, v).candidates
      == (if s.audio.has then CandidatesTold(s, AUDIO, |s.candidates|) else [])
         + (if s.video.has then CandidatesTold(s, VIDEO, |s.candidates|) else [])
  {
    hide Unfinished, ShareCredentials, SetCredentials, ReadCandidates, CandidatesTold, AudioCredentials, CleanSdp,
      Back;
    SharedSides(s, o, a, v);
    BackFields(s, o, a, v);
    var shared, n := ShareCredentials(Unfinished(s, o, a, v)), |s.candidates|;
    var heard := if s.audio.has then ReadCandidates(s.candidates, AUDIO, s.session.isBundle, n) else [];
    var seen := if s.video.has then ReadCandidates(s.candidates, VIDEO, false, n) else [];
    CredentialsConcat(heard, seen, shared);
    NoCandidates(shared);
    if s.audio.has {
      CandidatesAre(s, shared, AUDIO, n);
    }
    if s.video.has {
      CandidatesAre(s, shared, VIDEO, n);
    }
  }

  /** A map that leads the types of the list to themselves, and nothing else. */
  ghost predicate Identity(m: map<int, int>, printed: seq<RtpMap>) {
    && (forall x :: x in m <==> exists k :: 0 <= k < |printed| && printed[k].payloadType as int == x)
    && (forall x :: x in m ==> m[x] == x)
  }

  lemma {:induction false} AddedTypes(own: map<int, int>, read: seq<RtpMap>, payloads: seq<RtpMap>, media: MediaType, n: nat)
    requires n <= |payloads| && Identity(own, read)
    ensures Identity(AddTypes(own, payloads, media, n), read + PrintedOf(payloads, media, n))
  {
    if n == 0 {
      assert read + [] == read;
    } else {
      AddedTypes(own, read, payloads, media, n - 1);
      var before, r := read + PrintedOf(payloads, media, n - 1), payloads[n - 1];
      if r.mediaType == media {
        assert read + PrintedOf(payloads, media, n) == before + [r];
        IdentitySnoc(AddTypes(own, payloads, media, n - 1), before, r);
      } else {
        assert read + PrintedOf(payloads, media, n) == before;
      }
    }
  }

  lemma IdentitySnoc(m: map<int, int>, printed: seq<RtpMap>, r: RtpMap)
    requires Identity(m, printed)
    ensures Identity(m[r.payloadType := r.payloadType], printed + [r])
  {
    var more := printed + [r];
    assert more[|printed|] == r;
    assert forall k :: 0 <= k < |printed| ==> more[k] == printed[k];
  }

  lemma TypesAre(s: Sdp)
    ensures Identity(TypesBack(s), Printed(s))
  {
    hide Identity, AddTypes, PrintedOf;
    var all := s.payloads.list;
    NoTypes();
    AddedTypes(map[], [], all, AUDIO, |all|);
    Concats(PrintedOf(all, AUDIO, |all|));
    var heard := if s.audio.has then AddTypes(map[], all, AUDIO, |all|) else map[];
    AddedTypes(heard, AudioPrinted(s), all, VIDEO, |all|);
    Concats(AudioPrinted(s));
  }

  lemma NoTypes()
    ensures Identity(map[], [])
  {}

  lemma BackTypes(s: Sdp, o: Options, a: Direction, v: Direction)
    ensures Back(s, o, a, v).payloads.inOut == TypesBack(s) == Back(s, o, a, v).payloads.outIn
  {
    hide Unfinished, ShareCredentials, SetCredentials, GiveFeedback, TypesBack, CandidatesRead, CodecsRead, SavedPairs;
  }

  /** Of every clean description over the internal table all that is read back: both sides,
      the candidates with the credentials of their medium, the keys, the bandwidth, and the
      payload types, which stand for themselves. */
  lemma FieldsReadBack(s: Sdp, o: Options, encoding: Encoding, redFec: bool, a: Direction, v: Direction, media: string)
    requires (s.audio.has || s.video.has) && CleanSdp(s, o)
    requires forall k :: 0 <= k < |s.payloads.list| ==> InTable(InternalTable(encoding, redFec), s.payloads.list[k])
    ensures
      var r := Process(NewSdp(a, v), InternalTable(encoding, redFec), Text(Items(s, o)), media);
      && r.Done? && r.ok
      && var b := r.sdp;
      && b.audio == AudioTold(s, a) && b.video == VideoTold(s, v)
      && b.extra == VideoOnly(0, [], if s.video.has then s.extra.targetBandwidth else 0, 250, 120)
      && b.candidates == (if s.audio.has then CandidatesTold(s, AUDIO, |s.candidates|) else [])
                         + (if s.video.has then CandidatesTold(s, VIDEO, |s.candidates|) else [])
      && b.cryptos == (if s.audio.has then CryptosTold(s, AUDIO, |s.cryptos|) else [])
                      + (if s.video.has then CryptosTold(s, VIDEO, |s.cryptos|) else [])
      && Identity(b.payloads.inOut, Printed(s)) && Identity(b.payloads.outIn, Printed(s))
  {
    hide Process, Items, Text, InternalTable, InTable, Back, CleanLists, CleanSession, CleanExtra, TagsRead,
      GiveFeedback, CodecsRead, Unfinished, UniqueCodecs, AudioTold, VideoTold, CandidatesTold, CryptosTold, Identity,
      Printed, ReadCryptos, TypesBack;
    InternalTableIsUnique(encoding, redFec);
    TypesAreSmall(s, o);
    ReadBack(s, o, InternalTable(encoding, redFec), a, v, media);
    SidesAre(s, o, a, v);
    CandidatesBack(s, o, a, v);
    CryptosAre(s, AUDIO, |s.cryptos|);
    CryptosAre(s, VIDEO, |s.cryptos|);
    TypesAre(s);
    BackTypes(s, o, a, v);
  }
}
