/** ICE candidates as text: CandidateInfo::ToString and FromString
    (orbit/sdp_info.h:131-196) and the parser of the SDP path, splitOneOf on " :"
    followed by processCandidate (orbit/sdp_info.cc:1114-1182). */
module Candidates {
  import opened Common
  import opened SdpText

  datatype MediaType = VIDEO | AUDIO | OTHER

  datatype HostType = HOST | SRFLX | PRFLX | RELAY

  datatype Candidate = Candidate(
    foundation: string, componentId: nat, netProtocol: string, priority: nat,
    hostAddress: string, hostPort: nat, hostType: HostType, rAddress: string, rPort: nat,
    mediaType: MediaType, isBundle: bool, username: string, password: string)

  /** A new CandidateInfo; fields that its constructor leaves unset are 0 or empty. */
  function Blank(media: MediaType): Candidate {
    Candidate("", 0, "", 0, "", 0, HOST, "", 0, media, false, "", "")
  }

  predicate Related(t: HostType) {
    t == SRFLX || t == RELAY
  }

  function TypeName(t: HostType): string {
    match t
    case HOST => "host"
    case SRFLX => "srflx"
    case PRFLX => "prflx"
    case RELAY => "relay"
  }

  function TypeOf(name: string): HostType {
    if name == "srflx" then SRFLX
    else if name == "prflx" then PRFLX
    else if name == "relay" then RELAY
    else HOST
  }

  // ---------------------------------------------------------------- printing

  function RelatedWords(c: Candidate): seq<string> {
    if Related(c.hostType) then ["raddr", c.rAddress, "rport", Dec(c.rPort)] else []
  }

  function WordsOf(c: Candidate): seq<string> {
    [c.foundation, Dec(c.componentId), c.netProtocol, Dec(c.priority), c.hostAddress, Dec(c.hostPort),
     "typ", TypeName(c.hostType)] + RelatedWords(c) + ["generation", "0"]
  }

  const HEAD := "a=candidate:"

  function ToString(c: Candidate): string {
    HEAD + Spaced(WordsOf(c))
  }

  // ---------------------------------------------------------------- FromString

  /** An istringstream: what is left, and whether an extraction has failed. */
  datatype Stream = Stream(rest: string, good: bool)

  function WordLength(s: string): (k: nat)
    ensures k <= |s|
    ensures forall j :: 0 <= j < k ==> !IsSpace(s[j])
    ensures k < |s| ==> IsSpace(s[k])
  {
    if s == "" || IsSpace(s[0]) then 0 else 1 + WordLength(s[1..])
  }

  /** ss >> word, which leaves the word alone when nothing is left to extract. */
  function ReadWord(st: Stream, was: string): (string, Stream) {
    if !st.good then (was, st) else
      var t := SkipSpace(st.rest);
      if t == "" then (was, Stream("", false))
      else (t[..WordLength(t)], Stream(t[WordLength(t)..], true))
  }

  function DigitsLength(s: string): (k: nat)
    ensures k <= |s|
  {
    if s == "" || !IsDigit(s[0]) then 0 else 1 + DigitsLength(s[1..])
  }

  /** ss >> number for a number below bound. */
  function ReadNumber(st: Stream, was: nat, bound: nat): (nat, Stream)
    requires bound > 0
  {
    if !st.good then (was, st) else
      var t := SkipSpace(st.rest);
      var k := DigitsLength(t);
      if t == "" then (was, Stream("", false))
      else if k == 0 then (0, Stream(t, false))
      else if Number(t, 0) >= bound then (bound - 1, Stream(t[k..], false))
      else (Number(t, 0), Stream(t[k..], true))
  }

  const UINT := 0x1_0000_0000
  const INT := 0x8000_0000

  /** The extractions up to the type: the new fields, the word "typ" and what is left. */
  function ReadHead(st: Stream, c: Candidate): (Candidate, string, Stream) {
    var (foundation, s1) := ReadWord(st, c.foundation);
    var (componentId, s2) := ReadNumber(s1, c.componentId, UINT);
    var (netProtocol, s3) := ReadWord(s2, c.netProtocol);
    var (priority, s4) := ReadNumber(s3, c.priority, UINT);
    var (hostAddress, s5) := ReadWord(s4, c.hostAddress);
    var (hostPort, s6) := ReadNumber(s5, c.hostPort, INT);
    var (typ, s7) := ReadWord(s6, "");
    var (name, s8) := ReadWord(s7, "");
    (c.(foundation := foundation, componentId := componentId, netProtocol := netProtocol,
        priority := priority, hostAddress := hostAddress, hostPort := hostPort,
        hostType := TypeOf(name)), typ, s8)
  }

  function ReadRelated(st: Stream, typ: string, c: Candidate): Candidate {
    var (raddr, s9) := ReadWord(st, typ);
    var (rAddress, s10) := ReadWord(s9, c.rAddress);
    var (rport, s11) := ReadWord(s10, raddr);
    var (rPort, _) := ReadNumber(s11, c.rPort, INT);
    c.(rAddress := rAddress, rPort := rPort)
  }

  /** FromString on an object whose fields are those of c; None is the exception that
      substr throws on a text shorter than the head. */
  function FromString(s: string, c: Candidate): Option<Candidate> {
    if |s| < |HEAD| then None else
      var (d, typ, rest) := ReadHead(Stream(s[|HEAD|..], true), c);
      Some(if Related(d.hostType) then ReadRelated(rest, typ, d) else d)
  }

  // ---------------------------------------------------------------- processCandidate

  datatype Processed = OutOfRange | Ignored | Added(candidate: Candidate)

  predicate Udp(protocol: string) {
    protocol == "UDP" || protocol == "udp"
  }

  function ProcessCandidate(pieces: seq<string>, media: MediaType): Processed {
    if |pieces| <= 3 then OutOfRange
    else if !Udp(pieces[3]) then Ignored
    else if |pieces| <= 7 then OutOfRange
    else if pieces[7] != "typ" then Ignored
    else if |pieces| <= 8 then OutOfRange
    else
      var d := Blank(media).(
        foundation := pieces[1], componentId := ToUint(pieces[2]), netProtocol := pieces[3],
        priority := ToUint(pieces[4]), hostAddress := pieces[5], hostPort := ToUint(pieces[6]),
        hostType := TypeOf(pieces[8]));
      if !Related(d.hostType) then Added(d)
      else if |pieces| <= 12 then OutOfRange
      else Added(d.(rAddress := pieces[10], rPort := ToUint(pieces[12])))
  }

  /** What the SDP parser makes of a candidate line. */
  function FromLine(line: string, media: MediaType): Processed {
    ProcessCandidate(Split(line, {' ', ':'}, -1), media)
  }

  // ---------------------------------------------------------------- round trips

  const SPACES: set<char> := {' ', '\t', '\n', '\U{0B}', '\U{0C}', '\r'}

  predicate Token(s: string) {
    s != "" && Free(s, SPACES)
  }

  predicate Printable(c: Candidate) {
    && Token(c.foundation) && Token(c.netProtocol) && Token(c.hostAddress)
    && c.componentId < UINT && c.priority < UINT && c.hostPort < INT
    && (Related(c.hostType) ==> Token(c.rAddress) && c.rPort < INT)
  }

  predicate ColonFree(c: Candidate) {
    && Free(c.foundation, {':'}) && Free(c.hostAddress, {':'})
    && (Related(c.hostType) ==> Free(c.rAddress, {':'}))
  }

  /** d with every field that is printed taken from c. */
  function Restored(c: Candidate, d: Candidate): Candidate {
    var e := d.(foundation := c.foundation, componentId := c.componentId, netProtocol := c.netProtocol,
                priority := c.priority, hostAddress := c.hostAddress, hostPort := c.hostPort,
                hostType := c.hostType);
    if c.hostType == SRFLX || c.hostType == RELAY then e.(rAddress := c.rAddress, rPort := c.rPort) else e
  }

  lemma DigitsAreFree(s: string, delims: set<char>)
    requires AllDigits(s)
    requires forall d :: d in delims ==> !IsDigit(d)
    ensures Free(s, delims)
  {}

  lemma WordsAreTokens(c: Candidate)
    requires Printable(c)
    ensures Words(WordsOf(c), SPACES)
  {
    hide Dec, Spaced;
    DecIsDigits(c.componentId);
    DecIsDigits(c.priority);
    DecIsDigits(c.hostPort);
    DecIsDigits(c.rPort);
    DigitsAreFree(Dec(c.componentId), SPACES);
    DigitsAreFree(Dec(c.priority), SPACES);
    DigitsAreFree(Dec(c.hostPort), SPACES);
    DigitsAreFree(Dec(c.rPort), SPACES);
  }

  lemma {:induction false} WordLengthOf(word: string, rest: string)
    requires Free(word, SPACES) && (rest == "" || rest[0] == ' ')
    ensures WordLength(word + rest) == |word|
  {
    if word == "" {
      assert word + rest == rest;
    } else {
      assert (word + rest)[1..] == word[1..] + rest;
      assert !IsSpace(word[0]);
      WordLengthOf(word[1..], rest);
    }
  }

  /** The text before and after the first extraction. */
  lemma SkipTo(words: seq<string>)
    requires words != [] && Words(words, SPACES)
    ensures SkipSpace(Spaced(words)) == SkipSpace(Tail(words)) == Spaced(words) != ""
    ensures Spaced(words) == words[0] + Tail(words[1..])
    ensures WordLength(Spaced(words)) == |words[0]|
    ensures Spaced(words)[|words[0]|..] == Tail(words[1..]) && Spaced(words)[..|words[0]|] == words[0]
  {
    hide WordLength;
    var s := Spaced(words);
    assert s[0] == words[0][0] && words[0][0] !in SPACES;
    assert !IsSpace(s[0]);
    assert SkipSpace(s) == s;
    assert Tail(words)[1..] == s;
    WordLengthOf(words[0], Tail(words[1..]));
  }

  lemma {:induction false} DigitsOf(digits: string, rest: string, acc: nat)
    requires AllDigits(digits) && (rest == "" || rest[0] == ' ')
    ensures DigitsLength(digits + rest) == |digits|
    ensures Number(digits + rest, acc) == Number(digits, acc)
  {
    if digits == "" {
      assert digits + rest == rest;
    } else {
      assert (digits + rest)[1..] == digits[1..] + rest;
      DigitsOf(digits[1..], rest, 10 * acc + DigitValue(digits[0]));
    }
  }

  lemma ReadsWord(words: seq<string>, was: string)
    requires words != [] && Words(words, SPACES)
    ensures ReadWord(Stream(Tail(words), true), was) == (words[0], Stream(Tail(words[1..]), true))
    ensures ReadWord(Stream(Spaced(words), true), was) == (words[0], Stream(Tail(words[1..]), true))
  {
    hide Spaced, Tail, WordLength, SkipSpace;
    SkipTo(words);
  }

  lemma ReadsNumber(words: seq<string>, n: nat, was: nat, bound: nat)
    requires words != [] && Words(words, SPACES) && words[0] == Dec(n) && n < bound
    ensures ReadNumber(Stream(Tail(words), true), was, bound) == (n, Stream(Tail(words[1..]), true))
  {
    hide Spaced, WordLength, SkipSpace, Number, DigitsLength, Dec;
    SkipTo(words);
    DecIsDigits(n);
    NumberOfDec(n);
    DigitsOf(Dec(n), Tail(words[1..]), 0);
  }

  lemma TypeOfName(t: HostType)
    ensures TypeOf(TypeName(t)) == t
  {}

  lemma HeadReads(c: Candidate, d: Candidate)
    requires Printable(c)
    ensures
      var e := d.(foundation := c.foundation, componentId := c.componentId, netProtocol := c.netProtocol,
                  priority := c.priority, hostAddress := c.hostAddress, hostPort := c.hostPort,
                  hostType := c.hostType);
      ReadHead(Stream(Spaced(WordsOf(c)), true), d) == (e, "typ", Stream(Tail(WordsOf(c)[8..]), true))
  {
    hide ReadWord, ReadNumber, Spaced, Tail, Dec, TypeOf, TypeName;
    WordsAreTokens(c);
    TypeOfName(c.hostType);
    var w := WordsOf(c);
    ReadsWord(w, d.foundation);
    ReadsNumber(w[1..], c.componentId, d.componentId, UINT);
    ReadsWord(w[2..], d.netProtocol);
    ReadsNumber(w[3..], c.priority, d.priority, UINT);
    ReadsWord(w[4..], d.hostAddress);
    ReadsNumber(w[5..], c.hostPort, d.hostPort, INT);
    ReadsWord(w[6..], "");
    ReadsWord(w[7..], "");
  }

  lemma RelatedReads(c: Candidate, d: Candidate)
    requires Printable(c) && Related(c.hostType)
    ensures
      ReadRelated(Stream(Tail(WordsOf(c)[8..]), true), "typ", d) == d.(rAddress := c.rAddress, rPort := c.rPort)
  {
    hide ReadWord, ReadNumber, Spaced, Tail, Dec, TypeOf, TypeName;
    WordsAreTokens(c);
    var w := WordsOf(c);
    ReadsWord(w[8..], "typ");
    ReadsWord(w[9..], d.rAddress);
    ReadsWord(w[10..], "raddr");
    ReadsNumber(w[11..], c.rPort, d.rPort, INT);
  }

  /** An extraction of a number: blanks, then digits up to the bound; a larger number leaves
      the largest one and fails. */
  lemma NumberRead(blanks: string, n: nat, rest: string, was: nat, bound: nat)
    requires forall k :: 0 <= k < |blanks| ==> blanks[k] in BLANKS
    requires (rest == "" || !('0' <= rest[0] <= '9')) && bound > 0
    ensures
      ReadNumber(Stream(blanks + (Dec(n) + rest), true), was, bound)
      == if n < bound then (n, Stream(rest, true)) else (bound - 1, Stream(rest, false))
  {
    hide Dec, Number, DigitsLength, SkipSpace;
    DecIsDigits(n);
    NumberOfDec(n);
    SkipBlanks(blanks, Dec(n) + rest);
    NumberStops(Dec(n), rest, 0);
    DigitsStop(Dec(n), rest);
    assert IsDigit(Dec(n)[0]);
  }

  lemma {:induction false} DigitsStop(digits: string, rest: string)
    requires AllDigits(digits) && (rest == "" || !('0' <= rest[0] <= '9'))
    ensures DigitsLength(digits + rest) == |digits|
  {
    if digits == "" {
      assert digits + rest == rest;
    } else {
      assert (digits + rest)[1..] == digits[1..] + rest;
      DigitsStop(digits[1..], rest);
    }
  }

  /** Without a digit there the number is 0, and with nothing left, or after a failure, it
      stays; all three fail. */
  lemma NoNumberRead(blanks: string, rest: string, was: nat, bound: nat)
    requires forall k :: 0 <= k < |blanks| ==> blanks[k] in BLANKS
    requires (rest == "" || !('0' <= rest[0] <= '9' || rest[0] in BLANKS)) && bound > 0
    ensures ReadNumber(Stream(blanks + rest, true), was, bound) == (if rest == "" then was else 0, Stream(rest, false))
    ensures ReadNumber(Stream(rest, false), was, bound) == (was, Stream(rest, false))
  {
    hide SkipSpace;
    SkipBlanks(blanks, rest);
  }

  /** FromString recovers every printed field and touches no other. */
  lemma FromStringOfToString(c: Candidate, d: Candidate)
    requires Printable(c)
    ensures FromString(ToString(c), d) == Some(Restored(c, d))
  {
    hide ReadHead, ReadRelated, Spaced, WordsOf, Printable;
    assert ToString(c)[|HEAD|..] == Spaced(WordsOf(c));
    HeadReads(c, d);
    if Related(c.hostType) {
      RelatedReads(c, ReadHead(Stream(Spaced(WordsOf(c)), true), d).0);
    }
  }

  /** The words of a printed candidate. */
  lemma CandidateWords(c: Candidate)
    ensures
      var related := c.hostType == SRFLX || c.hostType == RELAY;
      ToString(c)
      == "a=candidate:" + Spaced(
           [c.foundation, Dec(c.componentId), c.netProtocol, Dec(c.priority), c.hostAddress, Dec(c.hostPort), "typ",
            if c.hostType == SRFLX then "srflx" else if c.hostType == PRFLX then "prflx"
            else if c.hostType == RELAY then "relay" else "host"]
           + (if related then ["raddr", c.rAddress, "rport", Dec(c.rPort)] else []) + ["generation", "0"])
  {
    hide Spaced, Dec;
  }

  const PIECE_ENDS: set<char> := {' ', ':'}

  lemma PiecesOfLine(c: Candidate)
    requires Printable(c) && Free(c.netProtocol, {':'}) && ColonFree(c)
    ensures Split(ToString(c), PIECE_ENDS, -1) == ["a=candidate"] + WordsOf(c)
  {
    hide Split, Spaced, Dec;
    WordsAreTokens(c);
    var w := WordsOf(c);
    DecIsDigits(c.componentId);
    DecIsDigits(c.priority);
    DecIsDigits(c.hostPort);
    DecIsDigits(c.rPort);
    assert forall k :: 0 <= k < |w| ==> Free(w[k], {':'});
    assert Words(w, PIECE_ENDS) by {
      forall k | 0 <= k < |w|
        ensures w[k] != "" && Free(w[k], PIECE_ENDS)
      {}
    }
    assert ToString(c) == "a=candidate" + [':'] + Spaced(w);
    SplitCut("a=candidate", ':', Spaced(w), PIECE_ENDS, -1);
    SplitSpaced(w, PIECE_ENDS, -2);
  }

  lemma PiecesRestore(c: Candidate, media: MediaType)
    requires Printable(c) && Udp(c.netProtocol)
    ensures ProcessCandidate(["a=candidate"] + WordsOf(c), media) == Added(Restored(c, Blank(media)))
  {
    hide Dec, ToUint;
    ToUintOfDec(c.componentId);
    ToUintOfDec(c.priority);
    ToUintOfDec(c.hostPort);
    if Related(c.hostType) {
      ToUintOfDec(c.rPort);
    }
  }

  /** The SDP parser recovers the printed candidate exactly when it is a UDP one whose
      tokens have no colon. */
  lemma FromLineRestoresIff(c: Candidate, media: MediaType)
    requires Printable(c)
    ensures FromLine(ToString(c), media) == Added(Restored(c, Blank(media)))
            <==> (c.netProtocol == "UDP" || c.netProtocol == "udp") && ColonFree(c)
  {
    hide Split, ToString, Dec, ToUint, WordsOf;
    if Udp(c.netProtocol) && ColonFree(c) {
      PiecesOfLine(c);
      PiecesRestore(c, media);
    }
    if FromLine(ToString(c), media) == Added(Restored(c, Blank(media))) {
      PiecesAreFree(ToString(c), PIECE_ENDS, -1);
      var pieces := Split(ToString(c), PIECE_ENDS, -1);
      assert Free(pieces[1], PIECE_ENDS) && Free(pieces[5], PIECE_ENDS);
    }
  }

  /** A candidate of another protocol whose tokens have no colon is passed over. */
  lemma OtherProtocolsIgnored(c: Candidate, media: MediaType)
    requires Printable(c) && ColonFree(c) && Free(c.netProtocol, {':'}) && !Udp(c.netProtocol)
    ensures FromLine(ToString(c), media) == Ignored
  {
    hide Split, ToString, Dec;
    PiecesOfLine(c);
  }

  /** The two parsers agree on what the printer writes for a UDP candidate without
      colons, and FromString alone reads one with colons. */
  lemma ParsersAgreeIff(c: Candidate, media: MediaType)
    requires Printable(c) && Udp(c.netProtocol)
    ensures FromString(ToString(c), Blank(media)).Some?
    ensures FromLine(ToString(c), media) == Added(FromString(ToString(c), Blank(media)).value) <==> ColonFree(c)
  {
    hide FromString, FromLine, ToString;
    FromStringOfToString(c, Blank(media));
    FromLineRestoresIff(c, media);
  }
}
