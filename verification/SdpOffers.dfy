/** Reading a text that somebody else has written: any clean lines in any order, with any
    payload numbers (orbit/sdp_info.cc:728-1058). What the codecs of the result are is told
    from the lines alone. */
module SdpOffers {
  import opened Common
  import opened SdpText
  import opened Candidates
  import opened SdpState
  import opened SdpPrint
  import opened SdpLines
  import opened SdpEffects
  import opened SdpClean
  import opened SdpCodecs

  // ---------------------------------------------------------------- told from the lines

  /** The codec of the table with this name and clock rate. */
  function Entry(table: seq<RtpMap>, name: string, clock: nat): Option<RtpMap> {
    if table == [] then None
    else if table[0].encodingName == name && table[0].clockRate == clock then Some(table[0])
    else Entry(table[1..], name, clock)
  }

  predicate Known(table: seq<RtpMap>, item: Item) {
    item.Rtpmap? && Entry(table, item.name, item.clock).Some?
  }

  /** The section that the first n lines end in. */
  function MediumAfter(items: seq<Item>, n: nat, start: MediaType): MediaType
    requires n <= |items|
  {
    if n == 0 then start
    else if items[n - 1].MLine? then (if items[n - 1].media == AUDIO then AUDIO else VIDEO)
    else MediumAfter(items, n - 1, start)
  }

  /** Where the known codecs are announced. */
  function KnownAt(table: seq<RtpMap>, items: seq<Item>, n: nat): (at: seq<nat>)
    requires n <= |items|
    ensures forall c :: 0 <= c < |at| ==> at[c] < n && Known(table, items[at[c]])
  {
    if n == 0 then []
    else KnownAt(table, items, n - 1) + (if Known(table, items[n - 1]) then [n - 1] else [])
  }

  /** The codec of a line: the payload type and the channels of the table. */
  function CodecAt(table: seq<RtpMap>, items: seq<Item>, k: nat, start: MediaType): RtpMap
    requires k < |items| && Known(table, items[k])
  {
    var e := Entry(table, items[k].name, items[k].clock).value;
    RtpMap(e.payloadType, items[k].name, items[k].clock, MediumAfter(items, k, start), e.channels, [], [])
  }

  function KnownCodecs(table: seq<RtpMap>, items: seq<Item>, n: nat, start: MediaType): seq<RtpMap>
    requires n <= |items|
  {
    var at := KnownAt(table, items, n);
    seq(|at|, c requires 0 <= c < |at| => CodecAt(table, items, at[c], start))
  }

  /** How many known codecs are announced in video sections, or outside them. */
  function KnownIn(table: seq<RtpMap>, items: seq<Item>, n: nat, start: MediaType, video: bool): nat
    requires n <= |items|
  {
    if n == 0 then 0 else
      KnownIn(table, items, n - 1, start, video)
      + if Known(table, items[n - 1]) && (MediumAfter(items, n - 1, start) == VIDEO <==> video) then 1 else 0
  }

  /** A payload number of a line, as an int holds it. */
  function Signed(pt: nat): int {
    if pt < 0x8000_0000 then pt else pt - 0x1_0000_0000
  }

  /** The payload type of the table that the last line with number x stands for. */
  function InnerOf(table: seq<RtpMap>, items: seq<Item>, n: nat, x: int): Option<int>
    requires n <= |items|
  {
    if n == 0 then None
    else if Known(table, items[n - 1]) && Signed(items[n - 1].pt) == x then
      Some(Entry(table, items[n - 1].name, items[n - 1].clock).value.payloadType)
    else InnerOf(table, items, n - 1, x)
  }

  /** The number of the last line that announces a codec with payload type y in the table. */
  function OuterOf(table: seq<RtpMap>, items: seq<Item>, n: nat, y: int): Option<int>
    requires n <= |items|
  {
    if n == 0 then None
    else if Known(table, items[n - 1]) && Entry(table, items[n - 1].name, items[n - 1].clock).value.payloadType == y then
      Some(Signed(items[n - 1].pt))
    else OuterOf(table, items, n - 1, y)
  }

  /** The value of the last parameter line for a payload type and a key after line k. */
  function LastParameter(items: seq<Item>, n: nat, k: nat, pt: nat, key: string): Option<string>
    requires n <= |items|
  {
    if n <= k + 1 then None
    else if items[n - 1].Fmtp? && items[n - 1].pt == pt && items[n - 1].key == key then Some(items[n - 1].value)
    else LastParameter(items, n - 1, k, pt, key)
  }

  /** The feedback lines for a payload type, wherever they are. */
  function FeedbackOf(items: seq<Item>, n: nat, pt: nat): seq<string>
    requires n <= |items|
  {
    if n == 0 then [] else
      FeedbackOf(items, n - 1, pt)
      + (if items[n - 1].Feedback? && items[n - 1].pt == pt then [items[n - 1].value] else [])
  }

  // ---------------------------------------------------------------- one rtpmap line

  lemma {:induction false} EntryIs(table: seq<RtpMap>, name: string, clock: nat)
    ensures
      match Entry(table, name, clock)
      case None => forall k :: 0 <= k < |table| ==> !(table[k].encodingName == name && table[k].clockRate == clock)
      case Some(e) => exists k :: 0 <= k < |table| && table[k] == e && e.encodingName == name && e.clockRate == clock
  {
    if table != [] && !(table[0].encodingName == name && table[0].clockRate == clock) {
      EntryIs(table[1..], name, clock);
      match Entry(table[1..], name, clock)
      case None =>
        forall k | 0 <= k < |table| ensures !(table[k].encodingName == name && table[k].clockRate == clock) {
          assert k > 0 ==> table[1..][k - 1] == table[k];
        }
      case Some(e) =>
        var k :| 0 <= k < |table[1..]| && table[1..][k] == e;
        assert table[k + 1] == e;
    }
  }

  lemma {:induction false} NothingMatched(table: seq<RtpMap>, n: nat, m: Match, pt: nat)
    requires n <= |table| && forall k :: 0 <= k < |table| ==> !SameCodec(table[k], m.codec)
    ensures Matched(table, n, m, pt) == m
  {
    if n > 0 {
      NothingMatched(table, n - 1, m, pt);
    }
  }

  /** What an rtpmap line does, with the codec of the table it announces. */
  function Announced(p: Parse, e: RtpMap, pt: nat): Parse {
    var own := p.sdp.payloads;
    var sdp := if p.mtype == VIDEO then p.sdp.(video := p.sdp.video.(codecs := p.sdp.video.codecs + 1))
               else p.sdp.(audio := p.sdp.audio.(codecs := p.sdp.audio.codecs + 1));
    p.(sdp := sdp.(payloads := Payloads(
      own.list + [RtpMap(e.payloadType, e.encodingName, e.clockRate, p.mtype, e.channels, [], [])],
      own.inOut[e.payloadType := Signed(pt)], own.outIn[Signed(pt) := e.payloadType])))
  }

  lemma CodecIsEntry(p: Parse, table: seq<RtpMap>, pt: nat, name: string, clock: nat)
    requires UniqueCodecs(table)
    ensures
      AddCodec(p, table, pt, name, clock)
      == match Entry(table, name, clock)
         case None => p
         case Some(e) => Announced(p, e, pt)
  {
    hide Matched, UniqueCodecs, Entry;
    var own := p.sdp.payloads;
    var m := Match(Codec(pt, name, clock, p.mtype, 0, []), false, own.inOut, own.outIn);
    EntryIs(table, name, clock);
    match Entry(table, name, clock)
    case None =>
      NothingMatched(table, |table|, m, pt);
    case Some(e) =>
      var k :| 0 <= k < |table| && table[k] == e;
      MatchedAt(table, k, |table|, m, pt);
  }

  const RTPMAP_ENDS: set<char> := {' ', ':', '/', '\n'}

  /** The pieces of an rtpmap line up to the clock rate, whose piece may go on behind it. */
  lemma RtpmapParts(pt: nat, name: string, clock: nat, end: string) returns (more: string)
    requires Word(name, WORD_ENDS) && (end == "" || !('0' <= end[0] <= '9'))
    ensures more == "" || !('0' <= more[0] <= '9')
    ensures
      var line := "a=rtpmap:" + Dec(pt) + " " + name + "/" + Dec(clock) + end;
      var parts := Split(line, RTPMAP_ENDS, 4);
      |parts| >= 4 && parts[1] == Dec(pt) && parts[2] == name && parts[3] == Dec(clock) + more
  {
    hide Split, Dec, FirstOf;
    var last := Dec(clock) + end;
    DecIsFree(pt, RTPMAP_ENDS);
    DecIsFree(clock, RTPMAP_ENDS);
    DecIsDigits(clock);
    assert "a=rtpmap:" + Dec(pt) + " " + name + "/" + Dec(clock) + end
        == "a=rtpmap" + [':'] + (Dec(pt) + [' '] + (name + ['/'] + last));
    SplitCut("a=rtpmap", ':', Dec(pt) + [' '] + (name + ['/'] + last), RTPMAP_ENDS, 4);
    SplitCut(Dec(pt), ' ', name + ['/'] + last, RTPMAP_ENDS, 3);
    SplitCut(name, '/', last, RTPMAP_ENDS, 2);
    var pos := FirstOf(last, RTPMAP_ENDS);
    BehindFree(Dec(clock), end, RTPMAP_ENDS);
    more := end[..pos - |Dec(clock)|];
    assert last[..pos] == Dec(clock) + more;
    FirstPiece(last, RTPMAP_ENDS, 1);
  }

  lemma BehindFree(part: string, rest: string, delims: set<char>)
    requires Free(part, delims)
    ensures FirstOf(part + rest, delims) >= |part|
  {
    hide FirstOf;
    assert forall j :: 0 <= j < |part| ==> (part + rest)[j] == part[j];
  }

  lemma FirstPiece(s: string, delims: set<char>, limit: int)
    requires s != "" && limit != 0
    ensures |Split(s, delims, limit)| >= 1 && Split(s, delims, limit)[0] == s[..FirstOf(s, delims)]
  {
    assert s[..|s|] == s;
  }

  lemma RtpmapHits(rest: string)
    requires Quiet("a=rtpmap:" + rest)
    ensures Hit("a=rtpmap:" + rest, CodecOnly(NO_CODEC.(rtpmap := true)))
  {
    hide Occurs, At, Quiet;
    TagsDiffer("a=rtpmap:" + rest);
    HeadOf("a=rtpmap:", "a=rtpmap:", rest, 2, 3, 4, 7);
  }

  /** An rtpmap line with any payload number and anything behind the clock rate (channels, a
      carriage return): a codec that the table has is appended with the table's payload type
      and channels and the section's medium, the section counts one more, and the two maps
      tell the numbers apart; any other codec is passed over. */
  lemma RtpmapLine(p: Parse, table: seq<RtpMap>, pt: nat, name: string, clock: nat, end: string)
    requires UniqueCodecs(table) && pt < UINT && clock < UINT && Word(name, WORD_ENDS)
    requires p.sdp.session.profile == SAVPF && (end == "" || !('0' <= end[0] <= '9'))
    requires Quiet("a=rtpmap:" + Dec(pt) + " " + name + "/" + Dec(clock) + end)
    ensures
      ProcessLine(p, table, "a=rtpmap:" + Dec(pt) + " " + name + "/" + Dec(clock) + end)
      == Some(match Entry(table, name, clock)
              case None => p
              case Some(e) => Announced(p, e, pt))
  {
    hide Scan, HandleSession, HandleTransport, AddCodec, Dec, Split, Announced, Entry, Word, UniqueCodecs, Quiet, ToUint;
    var line := "a=rtpmap:" + Dec(pt) + " " + name + "/" + Dec(clock) + end;
    assert line == "a=rtpmap:" + (Dec(pt) + " " + name + "/" + Dec(clock) + end);
    RtpmapHits(Dec(pt) + " " + name + "/" + Dec(clock) + end);
    var more := RtpmapParts(pt, name, clock, end);
    ToUintOfDec(pt);
    ToUintReads("", "", clock, more);
    assert "" + ("" + (Dec(clock) + more)) == Dec(clock) + more;
    SessionIdle(p, line, Scan(line).session);
    TransportIdle(p, line);
    CodecIsEntry(p, table, pt, name, clock);
  }

  // ---------------------------------------------------------------- one more line

  /** The codecs, maps and counters of the object are those the lines announce. */
  ghost predicate CodecsTold(p: Parse, table: seq<RtpMap>, items: seq<Item>, n: nat, start: MediaType)
    requires n <= |items|
  {
    var own := p.sdp.payloads;
    && p.mtype == MediumAfter(items, n, start)
    && Bares(own.list) == KnownCodecs(table, items, n, start)
    && (forall y :: (y in own.inOut <==> OuterOf(table, items, n, y).Some?)
                    && (y in own.inOut ==> own.inOut[y] == OuterOf(table, items, n, y).value))
    && (forall x :: (x in own.outIn <==> InnerOf(table, items, n, x).Some?)
                    && (x in own.outIn ==> own.outIn[x] == InnerOf(table, items, n, x).value))
    && p.sdp.video.codecs == KnownIn(table, items, n, start, true)
    && p.sdp.audio.codecs == KnownIn(table, items, n, start, false)
  }

  /** What the other lines do to the codecs: at most save a parameter. */
  lemma OtherLines(p: Parse, table: seq<RtpMap>, item: Item)
    requires !item.Rtpmap?
    ensures
      var q := Effect(p, table, item);
      && q.mtype == (if item.MLine? then (if item.media == AUDIO then AUDIO else VIDEO) else p.mtype)
      && q.sdp.payloads.inOut == p.sdp.payloads.inOut && q.sdp.payloads.outIn == p.sdp.payloads.outIn
      && q.sdp.video.codecs == p.sdp.video.codecs && q.sdp.audio.codecs == p.sdp.audio.codecs
      && q.sdp.payloads.list
         == (if item.Fmtp? then SaveFormat(p.sdp.payloads.list, item.pt, item.key, item.value) else p.sdp.payloads.list)
      && q.feedback == (if item.Feedback? then p.feedback + [Render(item)] else p.feedback)
  {
    hide SaveFormat, GroupPieces, Restored, Render;
  }

  lemma OtherKeepsCodecs(p: Parse, table: seq<RtpMap>, items: seq<Item>, n: nat, start: MediaType)
    requires n < |items| && CodecsTold(p, table, items, n, start) && !items[n].Rtpmap?
    ensures CodecsTold(Effect(p, table, items[n]), table, items, n + 1, start)
  {
    hide Effect, SaveFormat, Bares;
    OtherLines(p, table, items[n]);
    if items[n].Fmtp? {
      SaveKeepsBares(p.sdp.payloads.list, items[n].pt, items[n].key, items[n].value);
    }
    SameCodecs(table, items, n, start);
  }

  lemma SameCodecs(table: seq<RtpMap>, items: seq<Item>, n: nat, start: MediaType)
    requires n < |items| && !Known(table, items[n])
    ensures KnownCodecs(table, items, n + 1, start) == KnownCodecs(table, items, n, start)
  {}

  lemma OneMoreCodec(table: seq<RtpMap>, items: seq<Item>, n: nat, start: MediaType)
    requires n < |items| && Known(table, items[n])
    ensures
      KnownCodecs(table, items, n + 1, start) == KnownCodecs(table, items, n, start) + [CodecAt(table, items, n, start)]
  {
    hide CodecAt;
  }

  lemma AnnouncedWords(p: Parse, e: RtpMap, pt: nat)
    ensures
      var own, more := p.sdp.payloads, Announced(p, e, pt).sdp.payloads;
      var c := RtpMap(e.payloadType, e.encodingName, e.clockRate, p.mtype, e.channels, [], []);
      && Announced(p, e, pt).mtype == p.mtype && Announced(p, e, pt).feedback == p.feedback
      && more.list == own.list + [c] && Bare(c) == c
      && more.inOut == own.inOut[e.payloadType := Signed(pt)] && more.outIn == own.outIn[Signed(pt) := e.payloadType]
      && Announced(p, e, pt).sdp.video.codecs == p.sdp.video.codecs + (if p.mtype == VIDEO then 1 else 0)
      && Announced(p, e, pt).sdp.audio.codecs == p.sdp.audio.codecs + (if p.mtype == VIDEO then 0 else 1)
  {}

  lemma AnnouncementTold(p: Parse, table: seq<RtpMap>, items: seq<Item>, n: nat, start: MediaType)
    requires n < |items| && CodecsTold(p, table, items, n, start) && items[n].Rtpmap? && UniqueCodecs(table)
    ensures CodecsTold(Effect(p, table, items[n]), table, items, n + 1, start)
  {
    hide Announced, Bares, KnownCodecs, AddCodec, UniqueCodecs, Entry;
    var item := items[n];
    CodecIsEntry(p, table, item.pt, item.name, item.clock);
    EntryIs(table, item.name, item.clock);
    match Entry(table, item.name, item.clock)
    case None => SameCodecs(table, items, n, start);
    case Some(e) =>
      OneMoreCodec(table, items, n, start);
      AnnouncedWords(p, e, item.pt);
      var c := CodecAt(table, items, n, start);
      assert e.encodingName == item.name && e.clockRate == item.clock;
      BaresSnoc(p.sdp.payloads.list, c);
  }

  lemma CodecsStep(p: Parse, table: seq<RtpMap>, items: seq<Item>, n: nat, start: MediaType)
    requires n < |items| && CodecsTold(p, table, items, n, start) && UniqueCodecs(table)
    ensures CodecsTold(Effect(p, table, items[n]), table, items, n + 1, start)
  {
    hide CodecsTold, Effect;
    if items[n].Rtpmap? {
      AnnouncementTold(p, table, items, n, start);
    } else {
      OtherKeepsCodecs(p, table, items, n, start);
    }
  }

  // ---------------------------------------------------------------- parameters and feedback

  function PairsTold(items: seq<Item>, n: nat): seq<(nat, string)>
    requires n <= |items|
  {
    if n == 0 then [] else
      PairsTold(items, n - 1) + (if items[n - 1].Feedback? then [(items[n - 1].pt, items[n - 1].value)] else [])
  }

  /** What a line adds to the positions and to the feedback. */
  lemma LineWords(table: seq<RtpMap>, items: seq<Item>, n: nat)
    requires n < |items|
    ensures !Known(table, items[n]) ==> KnownAt(table, items, n + 1) == KnownAt(table, items, n)
    ensures Known(table, items[n]) ==> KnownAt(table, items, n + 1) == KnownAt(table, items, n) + [n]
    ensures !items[n].Feedback? ==> PairsTold(items, n + 1) == PairsTold(items, n)
  {}

  /** The parameters of each codec are those of the later lines with its own payload type, and
      the feedback lines are kept for the end. */
  ghost predicate ParametersTold(p: Parse, table: seq<RtpMap>, items: seq<Item>, n: nat)
    requires n <= |items|
  {
    var list, at := p.sdp.payloads.list, KnownAt(table, items, n);
    && |list| == |at| && NoFeedback(list)
    && (forall c, key :: 0 <= c < |list| ==>
          ValueAt(list[c].formatParameters, key) == LastParameter(items, n, at[c], list[c].payloadType, key))
    && p.feedback == FeedbackLines(PairsTold(items, n))
  }

  lemma ParameterStep(p: Parse, table: seq<RtpMap>, items: seq<Item>, n: nat)
    requires n < |items| && ParametersTold(p, table, items, n) && items[n].Fmtp?
    ensures ParametersTold(Effect(p, table, items[n]), table, items, n + 1)
  {
    hide Effect, SaveFormat, Insert, ValueAt, FeedbackLines;
    var item, list := items[n], p.sdp.payloads.list;
    LineWords(table, items, n);
    OtherLines(p, table, item);
    SaveLength(list, item.pt, item.key, item.value);
    SaveNoFeedback(list, item.pt, item.key, item.value);
    var saved := SaveFormat(list, item.pt, item.key, item.value);
    forall c, key | 0 <= c < |list|
      ensures
        ValueAt(saved[c].formatParameters, key)
        == LastParameter(items, n + 1, KnownAt(table, items, n)[c], saved[c].payloadType, key)
    {
      SaveValue(list, item.pt, item.key, item.value, c, key);
    }
  }

  lemma SaveNoFeedback(list: seq<RtpMap>, pt: nat, key: string, value: string)
    requires NoFeedback(list)
    ensures NoFeedback(SaveFormat(list, pt, key, value))
  {
    hide Insert;
  }

  lemma FeedbackLineStep(p: Parse, table: seq<RtpMap>, items: seq<Item>, n: nat)
    requires n < |items| && ParametersTold(p, table, items, n) && items[n].Feedback?
    ensures ParametersTold(Effect(p, table, items[n]), table, items, n + 1)
  {
    hide Effect, ValueAt, Render;
    var item := items[n];
    LineWords(table, items, n);
    OtherLines(p, table, item);
    FeedbackLinesConcat(PairsTold(items, n), [(item.pt, item.value)]);
    assert FeedbackLines([(item.pt, item.value)]) == [Render(item)];
  }

  lemma NewCodecStep(p: Parse, table: seq<RtpMap>, items: seq<Item>, n: nat)
    requires n < |items| && ParametersTold(p, table, items, n) && items[n].Rtpmap? && UniqueCodecs(table)
    ensures ParametersTold(Effect(p, table, items[n]), table, items, n + 1)
  {
    hide Announced, AddCodec, UniqueCodecs, Entry, FeedbackLines;
    var item, list := items[n], p.sdp.payloads.list;
    LineWords(table, items, n);
    CodecIsEntry(p, table, item.pt, item.name, item.clock);
    if Known(table, item) {
      var e := Entry(table, item.name, item.clock).value;
      AnnouncedWords(p, e, item.pt);
      var q := Effect(p, table, item);
      assert q == Announced(p, e, item.pt);
      forall c, key | 0 <= c < |q.sdp.payloads.list|
        ensures
          ValueAt(q.sdp.payloads.list[c].formatParameters, key)
          == LastParameter(items, n + 1, KnownAt(table, items, n + 1)[c], q.sdp.payloads.list[c].payloadType, key)
      {
        assert c < |list| ==> q.sdp.payloads.list[c] == list[c];
      }
    }
  }

  lemma OtherStep(p: Parse, table: seq<RtpMap>, items: seq<Item>, n: nat)
    requires n < |items| && ParametersTold(p, table, items, n)
    requires !items[n].Rtpmap? && !items[n].Fmtp? && !items[n].Feedback?
    ensures ParametersTold(Effect(p, table, items[n]), table, items, n + 1)
  {
    hide Effect, ValueAt, FeedbackLines;
    LineWords(table, items, n);
    OtherLines(p, table, items[n]);
  }

  lemma ParametersStep(p: Parse, table: seq<RtpMap>, items: seq<Item>, n: nat)
    requires n < |items| && ParametersTold(p, table, items, n) && UniqueCodecs(table)
    ensures ParametersTold(Effect(p, table, items[n]), table, items, n + 1)
  {
    hide ParametersTold, Effect;
    if items[n].Rtpmap? {
      NewCodecStep(p, table, items, n);
    } else if items[n].Fmtp? {
      ParameterStep(p, table, items, n);
    } else if items[n].Feedback? {
      FeedbackLineStep(p, table, items, n);
    } else {
      OtherStep(p, table, items, n);
    }
  }

  // ---------------------------------------------------------------- whole texts

  /** Some line so far gave a user name. */
  predicate Named(items: seq<Item>, n: nat)
    requires n <= |items|
  {
    exists k :: 0 <= k < n && items[k].Ufrag?
  }

  ghost predicate NamedTold(p: Parse, items: seq<Item>, n: nat)
    requires n <= |items|
  {
    (p.sdp.audio.username != "" || p.sdp.video.username != "") <==> Named(items, n)
  }

  lemma NamesStep(p: Parse, table: seq<RtpMap>, items: seq<Item>, n: nat)
    requires n < |items| && NamedTold(p, items, n) && Clean(items[n])
    ensures NamedTold(Effect(p, table, items[n]), items, n + 1)
  {
    hide SaveFormat, GroupPieces, Restored, Render, AddCodec;
    if items[n].Ufrag? {
      assert items[n].value != "";
    } else if items[n].Rtpmap? {
      CodecKeepsNames(p, table, items[n].pt, items[n].name, items[n].clock);
    } else {
      OtherKeepsNames(p, table, items[n]);
    }
  }

  lemma CodecKeepsNames(p: Parse, table: seq<RtpMap>, pt: nat, name: string, clock: nat)
    ensures AddCodec(p, table, pt, name, clock).sdp.audio.username == p.sdp.audio.username
    ensures AddCodec(p, table, pt, name, clock).sdp.video.username == p.sdp.video.username
  {
    hide Matched;
  }

  lemma OtherKeepsNames(p: Parse, table: seq<RtpMap>, item: Item)
    requires !item.Ufrag? && !item.Rtpmap?
    ensures Effect(p, table, item).sdp.audio.username == p.sdp.audio.username
    ensures Effect(p, table, item).sdp.video.username == p.sdp.video.username
  {
    hide SaveFormat, GroupPieces, Restored, Render;
  }

  lemma {:induction false} ReplayTold(s: Sdp, table: seq<RtpMap>, items: seq<Item>, n: nat, start: MediaType)
    requires n <= |items| && AllClean(items) && UniqueCodecs(table)
    requires exists a, v :: s == NewSdp(a, v)
    ensures
      var p := Replay(Parse(s, start, -1, []), table, items[..n]);
      CodecsTold(p, table, items, n, start) && ParametersTold(p, table, items, n) && NamedTold(p, items, n)
  {
    hide CodecsTold, ParametersTold, NamedTold, Effect, Clean, UniqueCodecs;
    var p := Parse(s, start, -1, []);
    if n == 0 {
      assert items[..0] == [];
      NothingTold(p, table, items, start);
    } else {
      ReplayTold(s, table, items, n - 1, start);
      assert items[..n] == items[..n - 1] + [items[n - 1]];
      ReplaySnoc(p, table, items[..n - 1], items[n - 1]);
      var before := Replay(p, table, items[..n - 1]);
      CodecsStep(before, table, items, n - 1, start);
      ParametersStep(before, table, items, n - 1);
      NamesStep(before, table, items, n - 1);
    }
  }

  lemma NothingTold(p: Parse, table: seq<RtpMap>, items: seq<Item>, start: MediaType)
    requires exists a, v :: p.sdp == NewSdp(a, v)
    requires p.mtype == start && p.feedback == []
    ensures CodecsTold(p, table, items, 0, start) && ParametersTold(p, table, items, 0) && NamedTold(p, items, 0)
  {}

  lemma {:induction false} PairsAreClean(items: seq<Item>, n: nat)
    requires n <= |items| && AllClean(items)
    ensures CleanPairs(PairsTold(items, n))
  {
    hide Word, CleanCandidate, CleanParameter, Untagged;
    if n > 0 {
      PairsAreClean(items, n - 1);
      assert Clean(items[n - 1]);
    }
  }

  lemma {:induction false} ReceivedIsTold(items: seq<Item>, n: nat, pt: nat)
    requires n <= |items|
    ensures Received(PairsTold(items, n), pt) == FeedbackOf(items, n, pt)
  {
    hide Received;
    if n == 0 {
      ReceivedEmpty(pt);
    } else {
      ReceivedIsTold(items, n - 1, pt);
      if items[n - 1].Feedback? {
        ReceivedSnoc(PairsTold(items, n - 1), (items[n - 1].pt, items[n - 1].value), pt);
      } else {
        LineWords([], items, n - 1);
      }
    }
  }

  /** The codecs of an object that has read the lines. */
  ghost predicate ReadsCodecs(s: Sdp, table: seq<RtpMap>, items: seq<Item>, start: MediaType) {
    var own, n := s.payloads, |items|;
    && Bares(own.list) == KnownCodecs(table, items, n, start)
    && (forall y :: (y in own.inOut <==> OuterOf(table, items, n, y).Some?)
                    && (y in own.inOut ==> own.inOut[y] == OuterOf(table, items, n, y).value))
    && (forall x :: (x in own.outIn <==> InnerOf(table, items, n, x).Some?)
                    && (x in own.outIn ==> own.outIn[x] == InnerOf(table, items, n, x).value))
    && s.video.codecs == KnownIn(table, items, n, start, true)
    && s.audio.codecs == KnownIn(table, items, n, start, false)
  }

  /** The parameters and the feedback of its codecs. */
  ghost predicate ReadsAttributes(s: Sdp, table: seq<RtpMap>, items: seq<Item>) {
    var list, at, n := s.payloads.list, KnownAt(table, items, |items|), |items|;
    && |list| == |at|
    && (forall c, key :: 0 <= c < |list| ==>
          ValueAt(list[c].formatParameters, key) == LastParameter(items, n, at[c], list[c].payloadType, key))
    && (forall c :: 0 <= c < |list| ==> list[c].feedbackTypes == FeedbackOf(items, n, list[c].payloadType))
  }

  lemma FinishTold(p: Parse, table: seq<RtpMap>, items: seq<Item>, start: MediaType)
    requires AllClean(items) && CodecsTold(p, table, items, |items|, start) && ParametersTold(p, table, items, |items|)
    requires NamedTold(p, items, |items|)
    ensures
      var r := Finish(p);
      && r.Done? && (r.ok <==> Named(items, |items|))
      && ReadsCodecs(r.sdp, table, items, start)
      && (r.ok ==> ReadsAttributes(r.sdp, table, items))
  {
    hide MapFeedback, GiveFeedback, Received, Bares, KnownCodecs, FeedbackLines, ValueAt, SetCredentials, CleanPairs;
    var n := |items|;
    var pairs := PairsTold(items, n);
    PairsAreClean(items, n);
    LinesCount(pairs);
    MapPairs(p.sdp.payloads.list, pairs, |pairs|);
    assert pairs[..|pairs|] == pairs;
    GiveKeepsBares(p.sdp.payloads.list, pairs);
    ShareKeepsCodecs(p.sdp);
    GivenTold(p.sdp.payloads.list, items);
  }

  lemma LinesCount(pairs: seq<(nat, string)>)
    ensures |FeedbackLines(pairs)| == |pairs|
  {}

  lemma ShareKeepsCodecs(s: Sdp)
    ensures ShareCredentials(s).payloads == s.payloads
    ensures ShareCredentials(s).video.codecs == s.video.codecs && ShareCredentials(s).audio.codecs == s.audio.codecs
  {}

  lemma GivenTold(list: seq<RtpMap>, items: seq<Item>)
    requires NoFeedback(list)
    ensures
      var given := GiveFeedback(list, PairsTold(items, |items|));
      && |given| == |list|
      && forall c :: 0 <= c < |list| ==>
           given[c].formatParameters == list[c].formatParameters && given[c].payloadType == list[c].payloadType
           && given[c].feedbackTypes == FeedbackOf(items, |items|, list[c].payloadType)
  {
    hide Received;
    forall c | 0 <= c < |list|
      ensures GiveFeedback(list, PairsTold(items, |items|))[c].feedbackTypes == FeedbackOf(items, |items|, list[c].payloadType)
    {
      ReceivedIsTold(items, |items|, list[c].payloadType);
    }
  }

  /** A text of any clean lines in any order is read to the end, and accepted if and only if
      one of them gives a user name. The codecs are those of the announced ones that the table
      has, with the table's payload types; the maps lead from each number to the payload type
      and back; and each codec has the parameters and the feedback that are given under its
      payload type in the table, not under its number in the text. */
  lemma TextIsReadAsTold(items: seq<Item>, encoding: Encoding, redFec: bool, a: Direction, v: Direction, media: string)
    requires AllClean(items) && OneGroup(items)
    ensures
      var table := InternalTable(encoding, redFec);
      var r := Process(NewSdp(a, v), table, Text(items), media);
      && r.Done? && (r.ok <==> Named(items, |items|))
      && ReadsCodecs(r.sdp, table, items, if media == "audio" then AUDIO else if media == "video" then VIDEO else OTHER)
      && (r.ok ==> ReadsAttributes(r.sdp, table, items))
  {
    hide Process, Text, Replay, Finish, Clean, InternalTable, UniqueCodecs, CodecsTold, ParametersTold, NamedTold,
      ReadsCodecs, ReadsAttributes, Named;
    var table := InternalTable(encoding, redFec);
    InternalTableIsUnique(encoding, redFec);
    ProcessOfText(NewSdp(a, v), table, items, media);
    ReplayTold(NewSdp(a, v), table, items, |items|, MediaOf(media));
    assert items[..|items|] == items;
    FinishTold(Replay(Parse(NewSdp(a, v), MediaOf(media), -1, []), table, items), table, items, MediaOf(media));
  }

  // ---------------------------------------------------------------- an offer of another browser

  const OFFER: seq<Item> := [
    MLine(AUDIO, " 9 RTP/SAVPF 109 8"), Ufrag("b1239219"), Rtpmap(109, "opus", 48000, 2), Rtpmap(8, "PCMA", 8000, 1),
    Fmtp(109, "none", "0-15"), Feedback(109, "nack")]

  lemma OfferCodecsClean()
    ensures Clean(OFFER[2]) && Clean(OFFER[3])
  {}

  lemma OfferRestClean()
    ensures Clean(OFFER[0]) && Clean(OFFER[1]) && Clean(OFFER[4]) && Clean(OFFER[5])
  {}

  lemma OfferIsClean()
    ensures AllClean(OFFER) && OneGroup(OFFER)
  {
    hide Clean;
    OfferCodecsClean();
    OfferRestClean();
  }

  lemma NoPcma(encoding: Encoding, redFec: bool, r: RtpMap)
    requires r in InternalTable(encoding, redFec)
    ensures r.encodingName != "PCMA"
  {
    if r in VideoEntries(encoding, redFec) {
      assert |r.encodingName| != 4 || r.encodingName[3] != 'A';
    } else {
      assert r in AudioEntries();
      assert |r.encodingName| != 4 || r.encodingName[3] != 'A';
    }
  }

  lemma OpusEntry(encoding: Encoding, redFec: bool)
    ensures Entry(InternalTable(encoding, redFec), "opus", 48000) == Some(AudioEntries()[0])
  {
    hide VideoEntries, AudioEntries, Entry;
    var table, n := InternalTable(encoding, redFec), |VideoEntries(encoding, redFec)|;
    InternalTableIsUnique(encoding, redFec);
    EntryIs(table, "opus", 48000);
    OpusIs();
    assert table[n] == AudioEntries()[0];
    assert Entry(table, "opus", 48000).Some?;
    var k :| 0 <= k < |table| && table[k] == Entry(table, "opus", 48000).value;
    SameIsOne(table, k, n);
  }

  lemma SameIsOne(table: seq<RtpMap>, k: nat, n: nat)
    requires UniqueCodecs(table) && k < |table| && n < |table| && SameCodec(table[k], table[n])
    ensures k == n
  {
    var i, j := if k < n then k else n, if k < n then n else k;
    assert i < j ==> !SameCodec(table[i], table[j]);
  }

  lemma OpusIs()
    ensures |AudioEntries()| > 0 && AudioEntries()[0] == Codec(111, "opus", 48000, AUDIO, 2, [("useinbandfec", "1")])
  {}

  lemma OfferEntries(encoding: Encoding, redFec: bool)
    ensures
      var table := InternalTable(encoding, redFec);
      && |AudioEntries()| > 0 && Entry(table, "opus", 48000) == Some(AudioEntries()[0]) && Entry(table, "PCMA", 8000) == None
  {
    hide InternalTable, Entry;
    var table := InternalTable(encoding, redFec);
    OpusIs();
    OpusEntry(encoding, redFec);
    EntryIs(table, "PCMA", 8000);
    if Entry(table, "PCMA", 8000).Some? {
      NoPcma(encoding, redFec, Entry(table, "PCMA", 8000).value);
    }
  }

  /** Opus under the number 109 is read as the table's 111, with neither the parameter nor
      the feedback that the offer gives for 109; PCMA, which the table lacks, is dropped. */
  lemma OpusIsRenumbered(encoding: Encoding, redFec: bool, a: Direction, v: Direction, media: string)
    ensures
      var r := Process(NewSdp(a, v), InternalTable(encoding, redFec), Text(OFFER), media);
      && r.Done? && r.ok && Bares(r.sdp.payloads.list) == [RtpMap(111, "opus", 48000, AUDIO, 2, [], [])]
      && |r.sdp.payloads.list| == 1 && r.sdp.payloads.list[0].feedbackTypes == []
      && ValueAt(r.sdp.payloads.list[0].formatParameters, "none") == None
      && r.sdp.payloads.outIn == map[109 := 111] && r.sdp.payloads.inOut == map[111 := 109]
  {
    hide Process, Text, InternalTable, Entry, AllClean, Clean, KnownCodecs, KnownAt, LastParameter, FeedbackOf, InnerOf, OuterOf,
      Bares, ValueAt, AudioEntries, KnownIn, OneGroup;
    var table := InternalTable(encoding, redFec);
    OfferIsClean();
    OfferEntries(encoding, redFec);
    TextIsReadAsTold(OFFER, encoding, redFec, a, v, media);
    assert Named(OFFER, 6) by {
      assert OFFER[1].Ufrag?;
    }
    OfferKnown(table);
    var r := Process(NewSdp(a, v), table, Text(OFFER), media);
    var start := if media == "audio" then AUDIO else if media == "video" then VIDEO else OTHER;
    OfferCodec(table, start);
    OfferAttributes();
    BareTypes(r.sdp.payloads.list);
    OfferMaps(table);
    assert forall x :: x in r.sdp.payloads.outIn <==> x == 109;
    assert forall y :: y in r.sdp.payloads.inOut <==> y == 111;
  }

  lemma BareTypes(list: seq<RtpMap>)
    ensures |Bares(list)| == |list|
    ensures forall k :: 0 <= k < |list| ==> Bares(list)[k].payloadType == list[k].payloadType
  {}

  lemma OfferKnown(table: seq<RtpMap>)
    requires Entry(table, "opus", 48000) == Some(AudioEntries()[0]) && Entry(table, "PCMA", 8000) == None
    ensures KnownAt(table, OFFER, 6) == [2]
  {
    hide Entry;
    assert KnownAt(table, OFFER, 0) == KnownAt(table, OFFER, 1) == KnownAt(table, OFFER, 2) == [];
    assert KnownAt(table, OFFER, 3) == [2];
    assert KnownAt(table, OFFER, 4) == [2];
    assert KnownAt(table, OFFER, 5) == [2];
  }

  lemma OfferCodec(table: seq<RtpMap>, start: MediaType)
    requires Entry(table, "opus", 48000) == Some(AudioEntries()[0]) && KnownAt(table, OFFER, 6) == [2]
    ensures KnownCodecs(table, OFFER, 6, start) == [RtpMap(111, "opus", 48000, AUDIO, 2, [], [])]
  {
    hide Entry, KnownAt;
    assert MediumAfter(OFFER, 1, start) == AUDIO;
    assert MediumAfter(OFFER, 2, start) == AUDIO;
  }

  lemma OfferAttributes()
    ensures LastParameter(OFFER, 6, 2, 111, "none") == None && FeedbackOf(OFFER, 6, 111) == []
  {
    assert LastParameter(OFFER, 3, 2, 111, "none") == None;
    assert LastParameter(OFFER, 4, 2, 111, "none") == None;
    assert LastParameter(OFFER, 5, 2, 111, "none") == None;
    assert FeedbackOf(OFFER, 0, 111) == FeedbackOf(OFFER, 1, 111) == FeedbackOf(OFFER, 2, 111) == [];
    assert FeedbackOf(OFFER, 3, 111) == FeedbackOf(OFFER, 4, 111) == FeedbackOf(OFFER, 5, 111) == [];
  }

  lemma OfferMaps(table: seq<RtpMap>)
    requires Entry(table, "opus", 48000) == Some(AudioEntries()[0]) && Entry(table, "PCMA", 8000) == None
    ensures forall x :: InnerOf(table, OFFER, 6, x) == if x == 109 then Some(111) else None
    ensures forall y :: OuterOf(table, OFFER, 6, y) == if y == 111 then Some(109) else None
  {
    hide Entry;
    forall x ensures InnerOf(table, OFFER, 6, x) == if x == 109 then Some(111) else None {
      assert InnerOf(table, OFFER, 0, x) == InnerOf(table, OFFER, 1, x) == InnerOf(table, OFFER, 2, x) == None;
      assert InnerOf(table, OFFER, 3, x) == if x == 109 then Some(111) else None;
      assert InnerOf(table, OFFER, 4, x) == InnerOf(table, OFFER, 5, x) == InnerOf(table, OFFER, 3, x);
    }
    forall y ensures OuterOf(table, OFFER, 6, y) == if y == 111 then Some(109) else None {
      assert OuterOf(table, OFFER, 0, y) == OuterOf(table, OFFER, 1, y) == OuterOf(table, OFFER, 2, y) == None;
      assert OuterOf(table, OFFER, 3, y) == if y == 111 then Some(109) else None;
      assert OuterOf(table, OFFER, 4, y) == OuterOf(table, OFFER, 5, y) == OuterOf(table, OFFER, 3, y);
    }
  }

  // ---------------------------------------------------------------- retransmission

  lemma GroupPieces3(a: nat, b: nat)
    ensures
      var line := "a=ssrc-group:FID " + Dec(a) + " " + Dec(b);
      && Split(line, {' ', ':'}, 10) == ["a=ssrc-group", "FID", Dec(a), Dec(b)]
      && Split(line, {' ', ':'}, 2) == ["a=ssrc-group", "FID", Dec(a) + " " + Dec(b)]
  {
    hide Split, Dec;
    var delims := {' ', ':'};
    DecIsFree(a, delims);
    DecIsFree(b, delims);
    var line := "a=ssrc-group:FID " + Dec(a) + " " + Dec(b);
    var tail := Dec(a) + [' '] + Dec(b);
    assert line == "a=ssrc-group" + [':'] + ("FID" + [' '] + tail);
    SplitCut("a=ssrc-group", ':', "FID" + [' '] + tail, delims, 10);
    SplitCut("FID", ' ', tail, delims, 9);
    SplitCut(Dec(a), ' ', Dec(b), delims, 8);
    SplitLast(Dec(b), delims, 7);
    SplitCut("a=ssrc-group", ':', "FID" + [' '] + tail, delims, 2);
    SplitCut("FID", ' ', tail, delims, 1);
    SplitLast(tail, delims, 0);
  }

  lemma GroupHits(a: nat, b: nat)
    ensures
      var line := "a=ssrc-group:FID " + Dec(a) + " " + Dec(b);
      Hit(line, CodecOnly(NO_CODEC.(ssrc := true, ssrcGroup := true)))
  {
    hide Occurs, At, Quiet, Dec;
    var rest := "FID " + Dec(a) + " " + Dec(b);
    DecIsFree(a, LINE_ENDS);
    DecIsFree(b, LINE_ENDS);
    var line := "a=ssrc-group:" + rest;
    assert line == "a=ssrc-group:FID " + Dec(a) + " " + Dec(b);
    QuietLine("a=ssrc-group:", rest);
    TagsDiffer(line);
    HeadOf("a=ssrc-group", "a=ssrc-group:", rest, 2, 3, 4, 6);
    HeadOf("a=ssrc", "a=ssrc-group:", rest, 2, 3, 4, 6);
  }

  /** A group line of a video section gives the retransmission SSRC, its second number; in
      other sections it does nothing, and it never sets the section's own SSRC. */
  lemma SsrcGroupLine(p: Parse, table: seq<RtpMap>, a: nat, b: nat)
    requires b < UINT && p.sdp.session.profile == SAVPF
    ensures
      ProcessLine(p, table, "a=ssrc-group:FID " + Dec(a) + " " + Dec(b))
      == Some(if p.mtype == VIDEO then p.(sdp := p.sdp.(extra := p.sdp.extra.(rtxSsrc := b))) else p)
  {
    hide Dec, Split, Scan, ToUint, HandleSession, HandleTransport;
    var line := "a=ssrc-group:FID " + Dec(a) + " " + Dec(b);
    GroupHits(a, b);
    GroupPieces3(a, b);
    ToUintOfDec(b);
    NoNumber();
    SessionIdle(p, line, Scan(line).session);
    TransportIdle(p, line);
  }

  lemma NoNumber()
    ensures ToUint("FID") == 0
  {}
}
