/** What reading the parts of a printed description does to the parser's state. */
module SdpSections {
  import opened SdpText
  import opened Candidates
  import opened SdpState
  import opened SdpPrint
  import opened SdpLines
  import opened SdpEffects
  import opened SdpClean

  // ---------------------------------------------------------------- candidates, tags, keys

  function WithCandidates(p: Parse, candidates: seq<Candidate>): Parse {
    p.(sdp := p.sdp.(candidates := candidates))
  }

  /** The UDP candidates among the printed ones, as they are read in a section. */
  function ReadCandidates(candidates: seq<Candidate>, media: MediaType, all: bool, n: nat): seq<Candidate>
    requires n <= |candidates|
  {
    if n == 0 then [] else
      var c := candidates[n - 1];
      ReadCandidates(candidates, media, all, n - 1)
      + (if Listed(c, media, all) && Udp(c.netProtocol) then [Restored(c, Blank(media))] else [])
  }

  lemma CandidateStep(p: Parse, table: seq<RtpMap>, before: seq<Candidate>, c: Candidate)
    ensures
      Effect(WithCandidates(p, before), table, CandidateLine(c))
      == WithCandidates(p, before + if Udp(c.netProtocol) then [Restored(c, Blank(p.mtype))] else [])
  {
    hide Restored;
  }

  lemma {:induction false} ReplayCandidates(p: Parse, table: seq<RtpMap>, candidates: seq<Candidate>, all: bool, n: nat)
    requires n <= |candidates|
    ensures
      Replay(p, table, CandidateItems(candidates, p.mtype, all, n))
      == WithCandidates(p, p.sdp.candidates + ReadCandidates(candidates, p.mtype, all, n))
  {
    hide Effect, Restored, WithCandidates;
    if n == 0 {
      Unchanged(p);
    } else {
      ReplayCandidates(p, table, candidates, all, n - 1);
      var before := p.sdp.candidates + ReadCandidates(candidates, p.mtype, all, n - 1);
      var c := candidates[n - 1];
      var items := CandidateItems(candidates, p.mtype, all, n - 1);
      if Listed(c, p.mtype, all) {
        ReplaySnoc(p, table, items, CandidateLine(c));
        CandidateStep(p, table, before, c);
        assert p.sdp.candidates + ReadCandidates(candidates, p.mtype, all, n)
            == before + if Udp(c.netProtocol) then [Restored(c, Blank(p.mtype))] else [];
      } else {
        assert CandidateItems(candidates, p.mtype, all, n) == items;
        assert ReadCandidates(candidates, p.mtype, all, n) == ReadCandidates(candidates, p.mtype, all, n - 1);
      }
    }
  }

  function WithTags(p: Parse, tags: seq<BundleTag>): Parse {
    WithSession(p, p.sdp.session.(bundleTags := tags))
  }

  /** The tags after the mid lines of a section. */
  function Marked(own: seq<BundleTag>, tags: seq<BundleTag>, media: MediaType, n: nat): (r: seq<BundleTag>)
    requires n <= |tags|
    ensures |r| == |own|
  {
    if n == 0 then own else
      var before := Marked(own, tags, media, n - 1);
      if tags[n - 1].mediaType == media then SetMedia(before, tags[n - 1].id, media) else before
  }

  lemma {:induction false} ReplayMids(p: Parse, table: seq<RtpMap>, tags: seq<BundleTag>, n: nat)
    requires n <= |tags|
    ensures
      Replay(p, table, MidItems(tags, p.mtype, n))
      == WithTags(p, Marked(p.sdp.session.bundleTags, tags, p.mtype, n))
  {
    hide Effect, SetMedia, WithTags;
    if n == 0 {
      Unchanged(p);
    } else {
      ReplayMids(p, table, tags, n - 1);
      var items := MidItems(tags, p.mtype, n - 1);
      if tags[n - 1].mediaType == p.mtype {
        ReplaySnoc(p, table, items, Mid(tags[n - 1].id));
        MidStep(p, table, Marked(p.sdp.session.bundleTags, tags, p.mtype, n - 1), tags[n - 1].id);
      } else {
        assert MidItems(tags, p.mtype, n) == items;
      }
    }
  }

  lemma MidStep(p: Parse, table: seq<RtpMap>, own: seq<BundleTag>, id: string)
    ensures Effect(WithTags(p, own), table, Mid(id)) == WithTags(p, SetMedia(own, id, p.mtype))
  {
    hide SetMedia;
  }

  function WithCryptos(p: Parse, cryptos: seq<Crypto>): Parse {
    p.(sdp := p.sdp.(cryptos := cryptos))
  }

  /** The keys of a medium; their tag numbers are not read. */
  function ReadCryptos(cryptos: seq<Crypto>, media: MediaType, n: nat): seq<Crypto>
    requires n <= |cryptos|
  {
    if n == 0 then [] else
      ReadCryptos(cryptos, media, n - 1)
      + (if cryptos[n - 1].mediaType == media then [cryptos[n - 1].(tag := 0)] else [])
  }

  lemma {:induction false} ReplayCryptos(p: Parse, table: seq<RtpMap>, cryptos: seq<Crypto>, n: nat)
    requires n <= |cryptos|
    ensures
      Replay(p, table, CryptoItems(cryptos, p.mtype, n))
      == WithCryptos(p, p.sdp.cryptos + ReadCryptos(cryptos, p.mtype, n))
  {
    hide Effect, WithCryptos;
    if n == 0 {
      Unchanged(p);
    } else {
      ReplayCryptos(p, table, cryptos, n - 1);
      var items := CryptoItems(cryptos, p.mtype, n - 1);
      var before := p.sdp.cryptos + ReadCryptos(cryptos, p.mtype, n - 1);
      var c := cryptos[n - 1];
      if c.mediaType == p.mtype {
        ReplaySnoc(p, table, items, CryptoLine(c));
        CryptoStep(p, table, before, c);
        assert p.sdp.cryptos + ReadCryptos(cryptos, p.mtype, n) == before + [c.(tag := 0)];
      } else {
        assert CryptoItems(cryptos, p.mtype, n) == items;
        assert ReadCryptos(cryptos, p.mtype, n) == ReadCryptos(cryptos, p.mtype, n - 1);
      }
    }
  }

  lemma CryptoStep(p: Parse, table: seq<RtpMap>, before: seq<Crypto>, c: Crypto)
    requires c.mediaType == p.mtype
    ensures Effect(WithCryptos(p, before), table, CryptoLine(c)) == WithCryptos(p, before + [c.(tag := 0)])
  {}

  /** Writing back what is there. */
  lemma Unchanged(p: Parse)
    ensures WithCandidates(p, p.sdp.candidates + []) == p && WithCryptos(p, p.sdp.cryptos + []) == p
    ensures WithTags(p, p.sdp.session.bundleTags) == p
  {}

  // ---------------------------------------------------------------- transport lines

  function AfterCredentials(p: Parse, username: string, password: string): Parse {
    WithSide(p, SideOf(p).(username := username, password := password))
  }

  function AfterFingerprint(p: Parse, s: Session): Parse {
    if s.isFingerprint then WithSession(p, p.sdp.session.(fingerprint := s.fingerprint, isFingerprint := true)) else p
  }

  function AfterDirection(p: Parse, d: Direction): Parse {
    WithSide(p, SideOf(p).(direction := d))
  }

  function AfterMids(p: Parse, tags: seq<BundleTag>): Parse {
    WithTags(p, Marked(p.sdp.session.bundleTags, tags, p.mtype, |tags|))
  }

  function AfterMux(p: Parse, s: Session): Parse {
    if s.isRtcpMux then OnRtcpMux(p) else p
  }

  function AfterCryptos(p: Parse, cryptos: seq<Crypto>): Parse {
    WithCryptos(p, p.sdp.cryptos + ReadCryptos(cryptos, p.mtype, |cryptos|))
  }

  function AfterTransport(p: Parse, s: Sdp, username: string, password: string, d: Direction): Parse {
    var p := AfterCredentials(p, username, password);
    var p := AfterFingerprint(p, s.session);
    var p := AfterDirection(p, d);
    var p := AfterMids(p, s.session.bundleTags);
    var p := AfterMux(p, s.session);
    AfterCryptos(p, s.cryptos)
  }

  lemma ReplayCredentials(p: Parse, table: seq<RtpMap>, username: string, password: string)
    ensures Replay(p, table, [Ufrag(username), Pwd(password)]) == AfterCredentials(p, username, password)
  {
    ReplayOne(p, table, Ufrag(username));
    assert [Ufrag(username), Pwd(password)] == [Ufrag(username)] + [Pwd(password)];
    ReplaySnoc(p, table, [Ufrag(username)], Pwd(password));
  }

  lemma SameMedia(p: Parse, s: Session, d: Direction, username: string, password: string)
    ensures AfterCredentials(p, username, password).mtype == p.mtype
    ensures AfterFingerprint(p, s).mtype == p.mtype && AfterDirection(p, d).mtype == p.mtype
    ensures AfterMux(p, s).mtype == p.mtype
  {}

  lemma ReplayOptions(p: Parse, table: seq<RtpMap>, s: Session, d: Direction)
    ensures
      Replay(p, table, if s.isFingerprint then [Fingerprint(s.fingerprint)] else []) == AfterFingerprint(p, s)
    ensures Replay(p, table, if s.setup != "" then [Plain("a=setup:" + s.setup)] else []) == p
    ensures Replay(p, table, [DirectionLine(d)]) == AfterDirection(p, d)
    ensures Replay(p, table, if s.isRtcpMux then [RtcpMux] else []) == AfterMux(p, s)
  {
    ReplayOne(p, table, Fingerprint(s.fingerprint));
    ReplayOne(p, table, Plain("a=setup:" + s.setup));
    ReplayOne(p, table, DirectionLine(d));
    ReplayOne(p, table, RtcpMux);
  }

  lemma ReplayTransport(p: Parse, table: seq<RtpMap>, s: Sdp, username: string, password: string, d: Direction)
    ensures
      Replay(p, table, TransportItems(s, username, password, d, p.mtype)) == AfterTransport(p, s, username, password, d)
  {
    hide Replay, MidItems, CryptoItems, AfterCredentials, AfterFingerprint, AfterDirection, AfterMux,
      Marked, ReadCryptos, WithTags, WithCryptos;
    var session := s.session;
    var a := [Ufrag(username), Pwd(password)];
    var b := if session.isFingerprint then [Fingerprint(session.fingerprint)] else [];
    var c := if session.setup != "" then [Plain("a=setup:" + session.setup)] else [];
    var e := [DirectionLine(d)];
    var f := MidItems(session.bundleTags, p.mtype, |session.bundleTags|);
    var g := if session.isRtcpMux then [RtcpMux] else [];
    var h := CryptoItems(s.cryptos, p.mtype, |s.cryptos|);
    ReplayCredentials(p, table, username, password);
    SameMedia(p, session, d, username, password);
    ReplayConcat(p, table, a, b);
    var p1 := AfterCredentials(p, username, password);
    SameMedia(p1, session, d, username, password);
    ReplayOptions(p1, table, session, d);
    ReplayConcat(p, table, a + b, c);
    var p2 := AfterFingerprint(p1, session);
    SameMedia(p2, session, d, username, password);
    ReplayOptions(p2, table, session, d);
    ReplayConcat(p, table, a + b + c, e);
    var p3 := AfterDirection(p2, d);
    ReplayMids(p3, table, session.bundleTags, |session.bundleTags|);
    ReplayConcat(p, table, a + b + c + e, f);
    var p4 := AfterMids(p3, session.bundleTags);
    MidsSameMedia(p3, session.bundleTags);
    ReplayOptions(p4, table, session, d);
    SameMedia(p4, session, d, username, password);
    ReplayConcat(p, table, a + b + c + e + f, g);
    ReplayCryptos(AfterMux(p4, session), table, s.cryptos, |s.cryptos|);
    ReplayConcat(p, table, a + b + c + e + f + g, h);
  }

  lemma MidsSameMedia(p: Parse, tags: seq<BundleTag>)
    ensures AfterMids(p, tags).mtype == p.mtype
  {
    hide Marked;
  }
}
