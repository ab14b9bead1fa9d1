/** Text primitives of the SDP code: substring search, splitOneOf
    (orbit/sdp_info.cc:33-51), std::getline, and decimal numbers as operator<< prints
    and strtoul reads them. */
module SdpText {
  import opened Common

  // ---------------------------------------------------------------- searching

  /** line.find(text) != npos */
  predicate Occurs(s: string, text: string) {
    text <= s || (s != "" && Occurs(s[1..], text))
  }

  lemma {:induction false} OccursAt(s: string, text: string) returns (p: nat)
    requires Occurs(s, text)
    ensures p <= |s| && text <= s[p..]
  {
    if text <= s {
      p := 0;
    } else {
      var q := OccursAt(s[1..], text);
      p := q + 1;
      assert s[1..][q..] == s[p..];
    }
  }

  /** find succeeds if and only if the text stands somewhere in the line. */
  lemma {:induction false} OccursIff(s: string, text: string)
    ensures Occurs(s, text) <==> exists p :: 0 <= p <= |s| && text <= s[p..]
  {
    if text <= s {
      assert text <= s[0..];
    } else if s != "" {
      OccursIff(s[1..], text);
      assert forall p :: 0 <= p < |s| ==> s[1..][p..] == s[p + 1..];
      if exists p :: 0 <= p <= |s| && text <= s[p..] {
        var p :| 0 <= p <= |s| && text <= s[p..];
        assert s[1..][p - 1..] == s[p..];
      }
    }
  }

  predicate Free(s: string, delims: set<char>) {
    forall k :: 0 <= k < |s| ==> s[k] !in delims
  }

  lemma FreeConcat(a: string, b: string, delims: set<char>)
    requires Free(a, delims) && Free(b, delims)
    ensures Free(a + b, delims)
  {}

  // ---------------------------------------------------------------- splitting

  /** find_first_of; the length stands for npos. */
  function FirstOf(s: string, delims: set<char>): (k: nat)
    ensures k <= |s|
    ensures k < |s| ==> s[k] in delims
    ensures forall j :: 0 <= j < k ==> s[j] !in delims
  {
    if s == "" || s[0] in delims then 0 else 1 + FirstOf(s[1..], delims)
  }

  /** At most limit cuts; a negative limit is none (maxSplits == 0 in the code). */
  function Split(s: string, delims: set<char>, limit: int): seq<string>
    decreases |s|
  {
    var pos := FirstOf(s, delims);
    if limit == 0 || pos == |s| then (if s == "" then [] else [s])
    else [s[..pos]] + Split(s[pos + 1..], delims, limit - 1)
  }

  lemma SplitCut(part: string, d: char, rest: string, delims: set<char>, limit: int)
    requires Free(part, delims) && d in delims && limit != 0
    ensures Split(part + [d] + rest, delims, limit) == [part] + Split(rest, delims, limit - 1)
  {
    var s := part + [d] + rest;
    assert s[|part|] == d;
    assert FirstOf(s, delims) == |part|;
    assert s[..|part|] == part && s[|part| + 1..] == rest;
  }

  lemma SplitLast(s: string, delims: set<char>, limit: int)
    requires s != "" && (limit == 0 || Free(s, delims))
    ensures Split(s, delims, limit) == [s]
  {
    assert limit == 0 || FirstOf(s, delims) == |s|;
  }

  method SplitOneOf(str: string, delims: set<char>, maxSplits: nat) returns (result: seq<string>)
    ensures result == Split(str, delims, if maxSplits == 0 then -1 else maxSplits)
  {
    hide Split, FirstOf;
    var remaining := str;
    result := [];
    var splits := 0;
    ghost var limit := if maxSplits == 0 then -1 else maxSplits;
    ghost var all := Split(str, delims, limit);
    while (maxSplits == 0 || splits < maxSplits) && FirstOf(remaining, delims) < |remaining|
      invariant maxSplits != 0 ==> splits <= maxSplits && limit == maxSplits - splits
      invariant maxSplits == 0 ==> limit < 0
      invariant all == result + Split(remaining, delims, limit)
      decreases |remaining|
    {
      NextSplit(result, remaining, delims, limit);
      var pos := FirstOf(remaining, delims);
      result := result + [remaining[..pos]];
      remaining := remaining[pos + 1..];
      splits := splits + 1;
      limit := limit - 1;
    }
    NextSplit(result, remaining, delims, limit);
    if |remaining| > 0 {
      result := result + [remaining];
    }
  }

  /** The pieces found so far and those of the rest, after one more turn or at the end. */
  lemma NextSplit(found: seq<string>, s: string, delims: set<char>, limit: int)
    ensures
      var pos := FirstOf(s, delims);
      && (limit == 0 || pos == |s| ==> found + Split(s, delims, limit) == if s == "" then found else found + [s])
      && (limit != 0 && pos < |s| ==>
            found + Split(s, delims, limit) == (found + [s[..pos]]) + Split(s[pos + 1..], delims, limit - 1))
  {
    hide FirstOf;
    var pos := FirstOf(s, delims);
    if limit != 0 && pos < |s| {
      Regroup(found, s[..pos], Split(s[pos + 1..], delims, limit - 1));
    }
  }

  lemma {:induction false} PiecesAreFree(s: string, delims: set<char>, limit: int)
    requires limit < 0
    ensures forall k {:trigger Split(s, delims, limit)[k]} :: 0 <= k < |Split(s, delims, limit)| ==>
      Free(Split(s, delims, limit)[k], delims)
    decreases |s|
  {
    var pos := FirstOf(s, delims);
    if pos < |s| {
      PiecesAreFree(s[pos + 1..], delims, limit - 1);
    }
  }

  /** The pieces lie in s in order, all but what the limit leaves over without delimiters,
      and with one delimiter behind each but a nonempty last one. */
  predicate CutInto(s: string, pieces: seq<string>, delims: set<char>, limit: int)
    decreases |pieces|
  {
    if s == "" then pieces == []
    else if limit == 0 then pieces == [s]
    else
      && pieces != [] && pieces[0] <= s && Free(pieces[0], delims)
      && if |pieces[0]| == |s| then pieces == [s]
         else s[|pieces[0]|] in delims && CutInto(s[|pieces[0]| + 1..], pieces[1..], delims, limit - 1)
  }

  lemma FirstCut(s: string, piece: string, delims: set<char>)
    ensures
      (piece <= s && Free(piece, delims) && |piece| < |s| && s[|piece|] in delims)
      <==> FirstOf(s, delims) < |s| && piece == s[..FirstOf(s, delims)]
  {
    hide FirstOf;
    var pos := FirstOf(s, delims);
    if piece <= s && Free(piece, delims) && |piece| < |s| && s[|piece|] in delims {
      assert forall j :: 0 <= j < |piece| ==> s[j] == piece[j];
    }
  }

  lemma CutWhole(s: string, pieces: seq<string>, delims: set<char>, limit: int)
    requires s == "" || limit == 0 || FirstOf(s, delims) == |s|
    ensures CutInto(s, pieces, delims, limit) <==> pieces == (if s == "" then [] else [s])
  {
    hide FirstOf;
    if s != "" && limit != 0 && pieces != [] {
      FirstCut(s, pieces[0], delims);
      assert s <= s;
    }
  }

  lemma CutAtFirst(s: string, pieces: seq<string>, delims: set<char>, limit: int)
    requires limit != 0 && FirstOf(s, delims) < |s|
    ensures
      var pos := FirstOf(s, delims);
      CutInto(s, pieces, delims, limit)
      <==> pieces != [] && pieces[0] == s[..pos] && CutInto(s[pos + 1..], pieces[1..], delims, limit - 1)
  {
    hide FirstOf;
    var pos := FirstOf(s, delims);
    if pieces != [] {
      FirstCut(s, pieces[0], delims);
      if pieces[0] <= s && |pieces[0]| == |s| {
        assert pieces[0] == s;
      }
    }
  }

  /** A text is cut in one way only, with empty pieces between neighbouring delimiters but
      none at the end. */
  lemma {:induction false} SplitIsTheOnlyCut(s: string, pieces: seq<string>, delims: set<char>, limit: int)
    ensures pieces == Split(s, delims, limit) <==> CutInto(s, pieces, delims, limit)
    decreases |s|
  {
    hide Split, FirstOf, CutInto;
    var pos := FirstOf(s, delims);
    SplitStep(s, delims, limit);
    if limit == 0 || pos == |s| {
      CutWhole(s, pieces, delims, limit);
    } else {
      CutAtFirst(s, pieces, delims, limit);
      if pieces != [] {
        SplitIsTheOnlyCut(s[pos + 1..], pieces[1..], delims, limit - 1);
        assert pieces == [pieces[0]] + pieces[1..];
      }
    }
  }

  lemma SplitStep(s: string, delims: set<char>, limit: int)
    ensures
      var pos := FirstOf(s, delims);
      Split(s, delims, limit)
      == if limit == 0 || pos == |s| then (if s == "" then [] else [s])
         else [s[..pos]] + Split(s[pos + 1..], delims, limit - 1)
  {
    hide FirstOf;
  }

  // ---------------------------------------------------------------- words

  /** " w0 w1 ..." */
  function Tail(words: seq<string>): string
    decreases |words|, 1
  {
    if words == [] then "" else " " + Spaced(words)
  }

  /** "w0 w1 ..." */
  function Spaced(words: seq<string>): string
    decreases |words|, 0
  {
    if words == [] then "" else words[0] + Tail(words[1..])
  }

  predicate Words(words: seq<string>, delims: set<char>) {
    forall k :: 0 <= k < |words| ==> words[k] != "" && Free(words[k], delims)
  }

  /** Words written with spaces are split apart up to the limit; what is left stays one
      piece. */
  lemma {:induction false} SplitSpaced(words: seq<string>, delims: set<char>, limit: int)
    requires words != [] && Words(words, delims) && ' ' in delims
    ensures limit < 0 || |words| <= limit + 1 ==> Split(Spaced(words), delims, limit) == words
    ensures 0 <= limit < |words| ==> |Split(Spaced(words), delims, limit)| == limit + 1
    decreases |words|
  {
    hide Split;
    var rest := words[1..];
    if rest == [] {
      assert Spaced(words) == words[0] && words == [words[0]];
      SplitLast(words[0], delims, limit);
    } else if limit == 0 {
      assert Spaced(words) != "";
      SplitLast(Spaced(words), delims, limit);
    } else {
      assert Spaced(words) == words[0] + [' '] + Spaced(rest);
      SplitCut(words[0], ' ', Spaced(rest), delims, limit);
      SplitSpaced(rest, delims, limit - 1);
    }
  }

  lemma {:induction false} SpacedIsFree(words: seq<string>, delims: set<char>)
    requires forall k :: 0 <= k < |words| ==> Free(words[k], delims)
    requires ' ' !in delims
    ensures Free(Spaced(words), delims) && Free(Tail(words), delims)
  {
    if words != [] {
      SpacedIsFree(words[1..], delims);
      FreeConcat(words[0], Tail(words[1..]), delims);
      FreeConcat(" ", Spaced(words), delims);
    }
  }

  // ---------------------------------------------------------------- lines

  /** What a getline loop reads. */
  function Lines(text: string): seq<string> {
    if text == "" then [] else
      var pos := FirstOf(text, {'\n'});
      if pos == |text| then [text] else [text[..pos]] + Lines(text[pos + 1..])
  }

  function Unlines(lines: seq<string>): string {
    if lines == [] then "" else lines[0] + "\n" + Unlines(lines[1..])
  }

  /** What follows the last line end is a line of its own unless it is empty. */
  lemma {:induction false} LinesOfText(lines: seq<string>, last: string)
    requires forall k :: 0 <= k < |lines| ==> Free(lines[k], {'\n'})
    requires Free(last, {'\n'})
    ensures Lines(Unlines(lines) + last) == lines + (if last == "" then [] else [last])
  {
    hide FirstOf, Lines;
    if lines == [] {
      assert Unlines(lines) + last == last;
      LastLine(last);
    } else {
      var rest := Unlines(lines[1..]) + last;
      LinesOfText(lines[1..], last);
      FirstLine(lines[0], rest);
      assert Unlines(lines) + last == lines[0] + "\n" + rest;
    }
  }

  lemma LastLine(last: string)
    requires Free(last, {'\n'})
    ensures Lines(last) == if last == "" then [] else [last]
  {}

  lemma LinesOfUnlines(lines: seq<string>)
    requires forall k :: 0 <= k < |lines| ==> Free(lines[k], {'\n'})
    ensures Lines(Unlines(lines)) == lines
  {
    hide Lines, Unlines;
    LinesOfText(lines, "");
    assert Unlines(lines) + "" == Unlines(lines);
  }

  lemma FirstLine(line: string, rest: string)
    requires Free(line, {'\n'})
    ensures Lines(line + "\n" + rest) == [line] + Lines(rest)
  {
    hide FirstOf;
    var text := line + "\n" + rest;
    assert text[|line|] == '\n';
    assert FirstOf(text, {'\n'}) == |line|;
    assert text[..|line|] == line && text[|line| + 1..] == rest;
  }

  lemma {:induction false} UnlinesConcat(a: seq<string>, b: seq<string>)
    ensures Unlines(a + b) == Unlines(a) + Unlines(b)
  {
    if a == [] {
      assert a + b == b;
    } else {
      assert (a + b)[1..] == a[1..] + b;
      UnlinesConcat(a[1..], b);
    }
  }

  // ---------------------------------------------------------------- numbers

  function Digit(n: nat): char
    requires n < 10
  {
    ('0' as int + n) as char
  }

  predicate IsDigit(c: char) {
    '0' <= c <= '9'
  }

  function DigitValue(c: char): nat
    requires IsDigit(c)
  {
    c as int - '0' as int
  }

  /** operator<< on an unsigned integer. */
  function Dec(n: nat): string {
    if n < 10 then [Digit(n)] else Dec(n / 10) + [Digit(n % 10)]
  }

  /** The value of the digits that s starts with, after those worth acc. */
  function Number(s: string, acc: nat): nat {
    if s == "" || !IsDigit(s[0]) then acc else Number(s[1..], 10 * acc + DigitValue(s[0]))
  }

  predicate IsSpace(c: char) {
    c == ' ' || '\t' <= c <= '\r'
  }

  function SkipSpace(s: string): string {
    if s != "" && IsSpace(s[0]) then SkipSpace(s[1..]) else s
  }

  const ULONG := 0x1_0000_0000_0000_0000

  /** strtoul(s, NULL, 10) with 64-bit unsigned long. */
  function StrToUL(s: string): nat {
    var t := SkipSpace(s);
    var negative := t != "" && t[0] == '-';
    var digits := if t != "" && (t[0] == '-' || t[0] == '+') then t[1..] else t;
    var v := Number(digits, 0);
    if v >= ULONG then ULONG - 1 else if negative && v > 0 then ULONG - v else v
  }

  /** ... stored into an unsigned int. */
  function ToUint(s: string): nat {
    StrToUL(s) % 0x1_0000_0000
  }

  predicate AllDigits(s: string) {
    forall k :: 0 <= k < |s| ==> IsDigit(s[k])
  }

  lemma {:induction false} DecIsDigits(n: nat)
    ensures Dec(n) != "" && AllDigits(Dec(n))
  {
    if n >= 10 {
      DecIsDigits(n / 10);
    }
  }

  lemma {:induction false} NumberAppend(s: string, d: char, acc: nat)
    requires AllDigits(s) && IsDigit(d)
    ensures Number(s + [d], acc) == 10 * Number(s, acc) + DigitValue(d)
  {
    if s == "" {
      assert s + [d] == [d];
      assert [d][1..] == "";
    } else {
      assert (s + [d])[1..] == s[1..] + [d];
      NumberAppend(s[1..], d, 10 * acc + DigitValue(s[0]));
    }
  }

  lemma {:induction false} NumberOfDec(n: nat)
    ensures Number(Dec(n), 0) == n
  {
    DecIsDigits(n);
    if n >= 10 {
      NumberOfDec(n / 10);
      DecIsDigits(n / 10);
      NumberAppend(Dec(n / 10), Digit(n % 10), 0);
    } else {
      assert Dec(n)[1..] == "";
    }
  }

  /** Printed numbers are read back. */
  lemma ToUintOfDec(n: nat)
    requires n < 0x1_0000_0000
    ensures ToUint(Dec(n)) == n
  {
    DecIsDigits(n);
    NumberOfDec(n);
    assert IsDigit(Dec(n)[0]);
    assert SkipSpace(Dec(n)) == Dec(n);
  }

  const BLANKS: set<char> := {' ', '\t', '\n', '\U{0B}', '\U{0C}', '\r'}

  lemma {:induction false} SkipBlanks(blanks: string, rest: string)
    requires (forall k :: 0 <= k < |blanks| ==> blanks[k] in BLANKS) && (rest == "" || rest[0] !in BLANKS)
    ensures SkipSpace(blanks + rest) == rest
  {
    if blanks == "" {
      assert blanks + rest == rest;
    } else {
      assert (blanks + rest)[1..] == blanks[1..] + rest;
      SkipBlanks(blanks[1..], rest);
    }
  }

  lemma {:induction false} NumberStops(digits: string, rest: string, acc: nat)
    requires AllDigits(digits) && (rest == "" || !('0' <= rest[0] <= '9'))
    ensures Number(digits + rest, acc) == Number(digits, acc)
  {
    if digits == "" {
      assert digits + rest == rest;
    } else {
      assert (digits + rest)[1..] == digits[1..] + rest;
      NumberStops(digits[1..], rest, 10 * acc + DigitValue(digits[0]));
    }
  }

  /** Blanks, a sign, digits and then anything else: a number that fits 64 bits is taken in
      32 bits, and counted down from 2^32 after a minus; a larger one is the largest number. */
  lemma ToUintReads(blanks: string, sign: string, n: nat, rest: string)
    requires forall k :: 0 <= k < |blanks| ==> blanks[k] in BLANKS
    requires sign == "" || sign == "+" || sign == "-"
    requires rest == "" || !('0' <= rest[0] <= '9')
    ensures
      ToUint(blanks + (sign + (Dec(n) + rest)))
      == if n >= 0x1_0000_0000_0000_0000 then 0xFFFF_FFFF
         else if sign == "-" then (0 - n) % 0x1_0000_0000 else n % 0x1_0000_0000
  {
    hide Dec, Number;
    DecIsDigits(n);
    NumberOfDec(n);
    NumberStops(Dec(n), rest, 0);
    var t := sign + (Dec(n) + rest);
    assert IsDigit(Dec(n)[0]) && t[0] == if sign == "" then Dec(n)[0] else sign[0];
    SkipBlanks(blanks, t);
    assert (if sign == "" then t else t[1..]) == Dec(n) + rest;
  }

  /** Without a digit there the number is 0. */
  lemma ToUintOfNone(blanks: string, sign: string, rest: string)
    requires forall k :: 0 <= k < |blanks| ==> blanks[k] in BLANKS
    requires sign == "" || sign == "+" || sign == "-"
    requires rest == "" || !('0' <= rest[0] <= '9' || rest[0] in BLANKS || (sign == "" && (rest[0] == '+' || rest[0] == '-')))
    ensures ToUint(blanks + (sign + rest)) == 0
  {
    var t := sign + rest;
    SkipBlanks(blanks, t);
    assert (if sign == "" then t else t[1..]) == rest;
  }
}
