/** What the media lines list (orbit/sdp_info.cc:333-345, 447-454). */
module SdpMediaLines {
  import opened Common
  import opened SdpText
  import opened Candidates
  import opened SdpState
  import opened SdpPrint
  import opened SdpEffects

  /** The payload types of a medium, in order. */
  function TypesOf(payloads: seq<RtpMap>, media: MediaType, n: nat): seq<string>
    requires n <= |payloads|
  {
    if n == 0 then [] else
      TypesOf(payloads, media, n - 1) + (if payloads[n - 1].mediaType == media then [Dec(payloads[n - 1].payloadType)] else [])
  }

  lemma {:induction false} TypesAreWords(payloads: seq<RtpMap>, media: MediaType, n: nat)
    requires n <= |payloads|
    ensures Words(TypesOf(payloads, media, n), {' '})
    ensures |TypesOf(payloads, media, n)| == Count(payloads, media, n)
  {
    hide Dec;
    if n > 0 {
      TypesAreWords(payloads, media, n - 1);
      DecIsFree(payloads[n - 1].payloadType, {' '});
      DecIsDigits(payloads[n - 1].payloadType);
    }
  }

  lemma {:induction false} SpacedSnoc(words: seq<string>, w: string)
    ensures Spaced(words + [w]) == if words == [] then w else Spaced(words) + " " + w
  {
    if words == [] {
      OneWord(w);
      assert words + [w] == [w];
    } else {
      assert (words + [w])[1..] == words[1..] + [w];
      SpacedSnoc(words[1..], w);
      if |words| == 1 {
        OneWord(words[0]);
        assert words == [words[0]];
        assert words[0] + (" " + w) == words[0] + " " + w;
      } else {
        assert words[0] + (" " + (Spaced(words[1..]) + " " + w)) == words[0] + (" " + Spaced(words[1..])) + " " + w;
      }
    }
  }

  lemma OneWord(w: string)
    ensures Spaced([w]) == w
  {
    assert [w][1..] == [];
    assert w + "" == w;
  }

  lemma ManyWords(words: seq<string>)
    requires |words| >= 2
    ensures Spaced(words) == words[0] + (" " + Spaced(words[1..]))
  {}

  lemma {:induction false} AudioIsSpaced(payloads: seq<RtpMap>, n: nat)
    requires n <= |payloads|
    ensures AudioTypes(payloads, n) == Spaced(TypesOf(payloads, AUDIO, n))
  {
    hide Dec, Spaced;
    if n == 0 {
      NoWord();
    } else {
      AudioIsSpaced(payloads, n - 1);
      TypesAreWords(payloads, AUDIO, n - 1);
      NoWord();
      SpacedSnoc(TypesOf(payloads, AUDIO, n - 1), Dec(payloads[n - 1].payloadType));
      if payloads[n - 1].mediaType != AUDIO {
        assert TypesOf(payloads, AUDIO, n) == TypesOf(payloads, AUDIO, n - 1);
      }
    }
  }

  lemma NoWord()
    ensures Spaced([]) == ""
  {}

  /** The audio line lists the payload types of the audio codecs. */
  lemma AudioLineLists(payloads: seq<RtpMap>)
    ensures Split(AudioTypes(payloads, |payloads|), {' '}, -1) == TypesOf(payloads, AUDIO, |payloads|)
  {
    hide Split, Spaced, AudioTypes, TypesOf, Words;
    var words := TypesOf(payloads, AUDIO, |payloads|);
    AudioIsSpaced(payloads, |payloads|);
    TypesAreWords(payloads, AUDIO, |payloads|);
    if words == [] {
      NoWord();
      SplitEmpty({' '}, -1);
    } else {
      SplitSpaced(words, {' '}, -1);
    }
  }

  // ---------------------------------------------------------------- video

  /** With a counter that is not too small the types are spaced, maybe with a space at the end. */
  lemma {:induction false} VideoIsSpaced(payloads: seq<RtpMap>, codecs: int, n: nat)
    requires n <= |payloads| && (Count(payloads, VIDEO, n) <= 1 || Count(payloads, VIDEO, n) <= codecs)
    ensures
      VideoTypes(payloads, codecs, n)
      == Spaced(TypesOf(payloads, VIDEO, n)) + (if 0 < Count(payloads, VIDEO, n) < codecs then " " else "")
  {
    hide Dec, Spaced;
    NoWord();
    if n > 0 {
      VideoIsSpaced(payloads, codecs, n - 1);
      TypesAreWords(payloads, VIDEO, n - 1);
      if payloads[n - 1].mediaType == VIDEO {
        SpacedSnoc(TypesOf(payloads, VIDEO, n - 1), Dec(payloads[n - 1].payloadType));
      } else {
        assert TypesOf(payloads, VIDEO, n) == TypesOf(payloads, VIDEO, n - 1);
      }
    }
  }

  /** A space at the end makes no piece. */
  lemma {:induction false} SplitTrailing(words: seq<string>)
    requires words != [] && Words(words, {' '})
    ensures Split(Spaced(words) + " ", {' '}, -1) == words
  {
    SplitTrailingTo(words, -1);
  }

  lemma {:induction false} SplitTrailingTo(words: seq<string>, limit: int)
    requires words != [] && Words(words, {' '}) && limit < 0
    ensures Split(Spaced(words) + " ", {' '}, limit) == words
    decreases |words|
  {
    hide Split, Spaced, Tail;
    var rest := words[1..];
    if rest == [] {
      OneWord(words[0]);
      assert words == [words[0]];
      assert words[0] + [' '] + "" == Spaced(words) + " ";
      SplitCut(words[0], ' ', "", {' '}, limit);
      SplitEmpty({' '}, limit - 1);
    } else {
      ManyWords(words);
      assert Spaced(words) + " " == words[0] + [' '] + (Spaced(rest) + " ");
      SplitCut(words[0], ' ', Spaced(rest) + " ", {' '}, limit);
      SplitTrailingTo(rest, limit - 1);
    }
  }

  function Spaces(s: string): nat {
    if s == "" then 0 else Spaces(s[..|s| - 1]) + if s[|s| - 1] == ' ' then 1 else 0
  }

  lemma {:induction false} SpacesConcat(a: string, b: string)
    ensures Spaces(a + b) == Spaces(a) + Spaces(b)
    decreases |b|
  {
    if b == "" {
      assert a + b == a;
    } else {
      assert (a + b)[..|a + b| - 1] == a + b[..|b| - 1];
      SpacesConcat(a, b[..|b| - 1]);
    }
  }

  lemma {:induction false} FreeHasNone(s: string)
    requires Free(s, {' '})
    ensures Spaces(s) == 0
  {
    if s != "" {
      FreeHasNone(s[..|s| - 1]);
    }
  }

  lemma OneSpace()
    ensures Spaces(" ") == 1 && Spaces("") == 0
  {}

  lemma {:induction false} PiecesBound(s: string, limit: int)
    ensures |Split(s, {' '}, limit)| <= Spaces(s) + 1
    decreases |s|
  {
    hide Split, FirstOf, Spaces;
    NextSplit([], s, {' '}, limit);
    var pos := FirstOf(s, {' '});
    assert [] + Split(s, {' '}, limit) == Split(s, {' '}, limit);
    if limit != 0 && pos < |s| {
      var rest := s[pos + 1..];
      PiecesBound(rest, limit - 1);
      assert s == s[..pos] + (" " + rest);
      SpacesConcat(s[..pos], " " + rest);
      SpacesConcat(" ", rest);
      OneSpace();
    }
  }

  lemma {:induction false} VideoSpaces(payloads: seq<RtpMap>, codecs: int, n: nat)
    requires n <= |payloads|
    ensures Spaces(VideoTypes(payloads, codecs, n)) <= if codecs <= 1 then 0 else codecs - 1
    ensures Spaces(VideoTypes(payloads, codecs, n)) <= Count(payloads, VIDEO, n)
  {
    hide Dec, Spaces;
    OneSpace();
    if n > 0 {
      VideoSpaces(payloads, codecs, n - 1);
      if payloads[n - 1].mediaType == VIDEO {
        var before, digits := VideoTypes(payloads, codecs, n - 1), Dec(payloads[n - 1].payloadType);
        var end := if Count(payloads, VIDEO, n) < codecs then " " else "";
        DecIsFree(payloads[n - 1].payloadType, {' '});
        FreeHasNone(digits);
        SpacesConcat(before + digits, end);
        SpacesConcat(before, digits);
      }
    }
  }

  /** The video line lists the payload types of the video codecs if and only if there is at
      most one, or the counter of codecs is not behind; else some run together. */
  lemma VideoLineListsIff(payloads: seq<RtpMap>, codecs: int)
    ensures
      Split(VideoTypes(payloads, codecs, |payloads|), {' '}, -1) == TypesOf(payloads, VIDEO, |payloads|)
      <==> Count(payloads, VIDEO, |payloads|) <= 1 || Count(payloads, VIDEO, |payloads|) <= codecs
  {
    hide Split, Spaced, VideoTypes, TypesOf, Words, Count;
    var n := |payloads|;
    var words, count := TypesOf(payloads, VIDEO, n), Count(payloads, VIDEO, n);
    TypesAreWords(payloads, VIDEO, n);
    if count <= 1 || count <= codecs {
      VideoIsSpaced(payloads, codecs, n);
      if words == [] {
        NoWord();
        SplitEmpty({' '}, -1);
      } else if count < codecs {
        SplitTrailing(words);
      } else {
        assert Spaced(words) + "" == Spaced(words);
        SplitSpaced(words, {' '}, -1);
      }
    } else {
      VideoSpaces(payloads, codecs, n);
      PiecesBound(VideoTypes(payloads, codecs, n), -1);
    }
  }
}
