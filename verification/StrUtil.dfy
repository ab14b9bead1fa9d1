/** Splitting and joining strings (orbit/base/strutil.cc:325-451). A delimiter is a C
    string: each of its characters delimits, so an empty one never splits. */
module StrUtil {
  import opened Common

  function Chars(delim: string): set<char> {
    set c | c in delim
  }

  // ---------------------------------------------------------------- searching

  /** find_first_of from i; the length stands for npos. */
  function FirstOf(s: string, delims: set<char>, i: nat): (k: nat)
    requires i <= |s|
    ensures i <= k <= |s|
    ensures k < |s| ==> s[k] in delims
    ensures forall j :: i <= j < k ==> s[j] !in delims
    decreases |s| - i
  {
    if i == |s| || s[i] in delims then i else FirstOf(s, delims, i + 1)
  }

  function FirstNotOf(s: string, delims: set<char>, i: nat): (k: nat)
    requires i <= |s|
    ensures i <= k <= |s|
    ensures k < |s| ==> s[k] !in delims
    ensures forall j :: i <= j < k ==> s[j] in delims
    decreases |s| - i
  {
    if i == |s| || s[i] !in delims then i else FirstNotOf(s, delims, i + 1)
  }

  // ---------------------------------------------------------------- SplitStringUsing

  /** The runs without delimiters from i on, as pairs of positions. */
  function Runs(s: string, delims: set<char>, i: nat): seq<(nat, nat)>
    requires i <= |s|
    decreases |s| - i
  {
    var b := FirstNotOf(s, delims, i);
    if b == |s| then [] else
      var e := FirstOf(s, delims, b);
      [(b, e)] + Runs(s, delims, e)
  }

  /** The specification both branches of SplitStringToIteratorUsing meet. */
  function Pieces(s: string, delims: set<char>, i: nat): seq<string>
    requires i <= |s|
    decreases |s| - i
  {
    var b := FirstNotOf(s, delims, i);
    if b == |s| then [] else
      var e := FirstOf(s, delims, b);
      [s[b..e]] + Pieces(s, delims, e)
  }

  /** A nonempty stretch of s without delimiters that cannot be made longer. */
  ghost predicate MaximalRun(s: string, delims: set<char>, r: (nat, nat)) {
    && r.0 < r.1 <= |s|
    && (forall j :: r.0 <= j < r.1 ==> s[j] !in delims)
    && (r.0 == 0 || s[r.0 - 1] in delims)
    && (r.1 == |s| || s[r.1] in delims)
  }

  /** The pieces are the texts of the runs ... */
  lemma {:induction false} PiecesAreRuns(s: string, delims: set<char>, i: nat)
    requires i <= |s|
    ensures |Pieces(s, delims, i)| == |Runs(s, delims, i)|
    ensures forall k :: 0 <= k < |Runs(s, delims, i)| ==>
      var r := Runs(s, delims, i)[k]; i <= r.0 <= r.1 <= |s| && Pieces(s, delims, i)[k] == s[r.0..r.1]
    decreases |s| - i
  {
    var b := FirstNotOf(s, delims, i);
    if b < |s| {
      PiecesAreRuns(s, delims, FirstOf(s, delims, b));
    }
  }

  /** ... the runs are maximal delimiter-free stretches ... */
  lemma {:induction false} RunsAreMaximal(s: string, delims: set<char>, i: nat)
    requires i <= |s| && (i == 0 || i == |s| || s[i] in delims)
    ensures forall k :: 0 <= k < |Runs(s, delims, i)| ==> MaximalRun(s, delims, Runs(s, delims, i)[k])
    decreases |s| - i
  {
    var b := FirstNotOf(s, delims, i);
    if b < |s| {
      var e := FirstOf(s, delims, b);
      assert b > 0 ==> s[b - 1] in delims;
      assert MaximalRun(s, delims, (b, e));
      RunsAreMaximal(s, delims, e);
    }
  }

  /** ... in order ... */
  lemma {:induction false} RunsAreOrdered(s: string, delims: set<char>, i: nat)
    requires i <= |s|
    ensures forall k :: 0 <= k < |Runs(s, delims, i)| ==>
      i <= Runs(s, delims, i)[k].0 < |s| && s[Runs(s, delims, i)[k].0] !in delims
    ensures forall a, b :: 0 <= a < b < |Runs(s, delims, i)| ==> Runs(s, delims, i)[a].1 < Runs(s, delims, i)[b].0
    decreases |s| - i
  {
    var b := FirstNotOf(s, delims, i);
    if b < |s| {
      var e := FirstOf(s, delims, b);
      RunsAreOrdered(s, delims, e);
      var rest := Runs(s, delims, e);
      assert Runs(s, delims, i) == [(b, e)] + rest;
      assert forall k :: 0 <= k < |rest| ==> e < rest[k].0;
    }
  }

  /** ... and every character that is no delimiter is in one. */
  lemma {:induction false} RunsCover(s: string, delims: set<char>, i: nat, k: nat) returns (n: nat)
    requires i <= k < |s| && s[k] !in delims
    ensures n < |Runs(s, delims, i)| && Runs(s, delims, i)[n].0 <= k < Runs(s, delims, i)[n].1
    decreases |s| - i
  {
    var b := FirstNotOf(s, delims, i);
    var e := FirstOf(s, delims, b);
    if k < e {
      n := 0;
    } else {
      var m := RunsCover(s, delims, e, k);
      n := m + 1;
    }
  }

  lemma SkipDelimiter(s: string, delims: set<char>, i: nat)
    requires i < |s| && s[i] in delims
    ensures Pieces(s, delims, i) == Pieces(s, delims, i + 1)
  {}

  lemma TakeRun(s: string, delims: set<char>, start: nat, p: nat)
    requires start < p <= |s| && (p == |s| || s[p] in delims)
    requires forall j :: start <= j < p ==> s[j] !in delims
    ensures Pieces(s, delims, start) == [s[start..p]] + Pieces(s, delims, p)
  {
    assert FirstNotOf(s, delims, start) == start && FirstOf(s, delims, start) == p;
  }

  lemma NextPiece(s: string, delims: set<char>, i: nat)
    requires i <= |s|
    ensures
      var b := FirstNotOf(s, delims, i);
      && (b == |s| ==> Pieces(s, delims, i) == [])
      && (b < |s| ==> Pieces(s, delims, i) == [s[b..FirstOf(s, delims, b)]] + Pieces(s, delims, FirstOf(s, delims, b)))
  {}

  /** The single-character branch. */
  method SplitFast(full: string, c: char) returns (result: seq<string>)
    ensures result == Pieces(full, {c}, 0)
  {
    hide Pieces;
    result := [];
    ghost var all := Pieces(full, {c}, 0);
    ghost var rest := all;
    NextPiece(full, {c}, |full|);
    var p := 0;
    while p != |full|
      invariant 0 <= p <= |full|
      invariant all == result + rest && rest == Pieces(full, {c}, p)
    {
      if full[p] == c {
        SkipDelimiter(full, {c}, p);
        p := p + 1;
      } else {
        var start := p;
        p := p + 1;
        while p != |full| && full[p] != c
          invariant start < p <= |full|
          invariant forall j :: start <= j < p ==> full[j] != c
        {
          p := p + 1;
        }
        TakeRun(full, {c}, start, p);
        rest := Pieces(full, {c}, p);
        Regroup(result, full[start..p], rest);
        result := result + [full[start..p]];
      }
    }
  }

  /** The find_first_not_of / find_first_of loop. */
  method SplitGeneral(full: string, delims: set<char>) returns (result: seq<string>)
    ensures result == Pieces(full, delims, 0)
  {
    result := [];
    ghost var start := 0;
    var begin := FirstNotOf(full, delims, 0);
    while begin != |full|
      invariant 0 <= start <= begin <= |full| && begin == FirstNotOf(full, delims, start)
      invariant Pieces(full, delims, 0) == result + Pieces(full, delims, start)
      decreases |full| - begin
    {
      var end := FirstOf(full, delims, begin);
      NextPiece(full, delims, start);
      Regroup(result, full[begin..end], Pieces(full, delims, end));
      if end == |full| {
        assert full[begin..] == full[begin..end];
        NextPiece(full, delims, end);
        result := result + [full[begin..]];
        return;
      }
      result := result + [full[begin..end]];
      start := end;
      begin := FirstNotOf(full, delims, end);
    }
    NextPiece(full, delims, start);
  }

  method SplitStringUsing(full: string, delim: string) returns (result: seq<string>)
    ensures result == Pieces(full, set c | c in delim, 0)
  {
    if |delim| == 1 {
      assert Chars(delim) == {delim[0]};
      result := SplitFast(full, delim[0]);
    } else {
      result := SplitGeneral(full, Chars(delim));
    }
  }

  // ---------------------------------------------------------------- SplitStringAllowEmpty

  /** The fields from i on, after at most limit cuts; a negative limit is none. */
  function Fields(s: string, delims: set<char>, i: nat, limit: int): seq<string>
    requires i <= |s|
    decreases |s| - i
  {
    var e := FirstOf(s, delims, i);
    if limit == 0 || e == |s| then [s[i..]]
    else [s[i..e]] + Fields(s, delims, e + 1, limit - 1)
  }

  lemma NextField(s: string, delims: set<char>, i: nat, limit: int)
    requires i <= |s|
    ensures
      var e := FirstOf(s, delims, i);
      && (limit == 0 || e == |s| ==> Fields(s, delims, i, limit) == [s[i..]])
      && (limit != 0 && e < |s| ==> Fields(s, delims, i, limit) == [s[i..e]] + Fields(s, delims, e + 1, limit - 1))
  {}

  /** The parameter pieces as a number of cuts. */
  function Cuts(pieces: int): int {
    if pieces == 0 then -1 else if pieces > 0 then pieces - 1 else 0
  }

  method SplitAllowEmpty(full: string, delim: string, pieces: int) returns (result: seq<string>)
    ensures result == Fields(full, set c | c in delim, 0, Cuts(pieces))
  {
    hide Fields, FirstOf;
    var delims := Chars(delim);
    result := [];
    ghost var limit := Cuts(pieces);
    ghost var all := Fields(full, delims, 0, limit);
    var begin := 0;
    var i := 0;
    while i < pieces - 1 || pieces == 0
      invariant 0 <= begin <= |full| && i >= 0
      invariant pieces != 0 ==> limit == (if pieces > 0 then pieces - 1 - i else 0) && limit >= 0
      invariant pieces == 0 ==> limit < 0
      invariant all == result + Fields(full, delims, begin, limit)
      decreases |full| - begin
    {
      NextField(full, delims, begin, limit);
      var end := FirstOf(full, delims, begin);
      if end == |full| {
        result := result + [full[begin..]];
        return;
      }
      Regroup(result, full[begin..end], Fields(full, delims, end + 1, limit - 1));
      result := result + [full[begin..end]];
      begin := end + 1;
      limit := limit - 1;
      i := i + 1;
    }
    NextField(full, delims, begin, limit);
    result := result + [full[begin..]];
  }

  function CountDelims(s: string, delims: set<char>, i: nat): nat
    requires i <= |s|
    decreases |s| - i
  {
    if i == |s| then 0 else (if s[i] in delims then 1 else 0) + CountDelims(s, delims, i + 1)
  }

  lemma {:induction false} CountFrom(s: string, delims: set<char>, i: nat, e: nat)
    requires i <= e <= |s| && forall j :: i <= j < e ==> s[j] !in delims
    ensures CountDelims(s, delims, i) == CountDelims(s, delims, e)
    decreases e - i
  {
    if i < e {
      CountFrom(s, delims, i + 1, e);
    }
  }

  lemma {:induction false} FieldCount(s: string, delims: set<char>, i: nat, limit: int)
    requires i <= |s|
    ensures
      var n := CountDelims(s, delims, i);
      |Fields(s, delims, i, limit)| == if 0 <= limit < n then limit + 1 else n + 1
    decreases |s| - i
  {
    var e := FirstOf(s, delims, i);
    CountFrom(s, delims, i, e);
    if limit != 0 && e < |s| {
      FieldCount(s, delims, e + 1, limit - 1);
    }
  }

  /** All the pieces when 0 are asked for, else at most as many as are asked for, one at
      least. */
  lemma PieceCount(full: string, delim: string, pieces: int)
    ensures
      var delims := set c | c in delim;
      var all := CountDelims(full, delims, 0) + 1;
      |Fields(full, delims, 0, Cuts(pieces))|
      == if pieces == 0 || all <= pieces then all else if pieces < 0 then 1 else pieces
  {
    FieldCount(full, set c | c in delim, 0, Cuts(pieces));
  }

  predicate Without(s: string, delims: set<char>) {
    forall k :: 0 <= k < |s| ==> s[k] !in delims
  }

  /** The fields lie in s in order with one delimiter between two, and all but what the limit
      leaves over have none in them. */
  predicate FieldsOf(s: string, fields: seq<string>, delims: set<char>, limit: int)
    decreases |fields|
  {
    && fields != []
    && if limit == 0 then fields == [s]
       else
         && fields[0] <= s && Without(fields[0], delims)
         && if |fields[0]| == |s| then fields == [s]
            else s[|fields[0]|] in delims && FieldsOf(s[|fields[0]| + 1..], fields[1..], delims, limit - 1)
  }

  lemma FirstField(s: string, i: nat, field: string, delims: set<char>)
    requires i <= |s|
    ensures
      (field <= s[i..] && Without(field, delims) && |field| < |s| - i && s[i + |field|] in delims)
      <==> FirstOf(s, delims, i) < |s| && field == s[i..FirstOf(s, delims, i)]
  {
    hide FirstOf;
    if field <= s[i..] && Without(field, delims) && |field| < |s| - i && s[i + |field|] in delims {
      assert forall j :: 0 <= j < |field| ==> s[i + j] == s[i..][j] == field[j];
    }
  }

  lemma FieldsWhole(s: string, i: nat, fields: seq<string>, delims: set<char>, limit: int)
    requires i <= |s| && (limit == 0 || FirstOf(s, delims, i) == |s|)
    ensures FieldsOf(s[i..], fields, delims, limit) <==> fields == [s[i..]]
  {
    hide FirstOf;
    if limit != 0 && fields != [] {
      FirstField(s, i, fields[0], delims);
      assert s[i..] <= s[i..];
    }
  }

  lemma FieldsAtFirst(s: string, i: nat, fields: seq<string>, delims: set<char>, limit: int)
    requires i <= |s| && limit != 0 && FirstOf(s, delims, i) < |s|
    ensures
      var e := FirstOf(s, delims, i);
      FieldsOf(s[i..], fields, delims, limit)
      <==> fields != [] && fields[0] == s[i..e] && FieldsOf(s[e + 1..], fields[1..], delims, limit - 1)
  {
    hide FirstOf;
    var e := FirstOf(s, delims, i);
    assert s[i..][e - i + 1..] == s[e + 1..];
    if fields != [] {
      FirstField(s, i, fields[0], delims);
      if fields[0] <= s[i..] && |fields[0]| == |s| - i {
        assert fields[0] == s[i..];
        assert fields[0][e - i] == s[e];
      }
    }
  }

  /** A text has these fields and no others. */
  lemma {:induction false} FieldsAreTheOnly(s: string, i: nat, fields: seq<string>, delims: set<char>, limit: int)
    requires i <= |s|
    ensures fields == Fields(s, delims, i, limit) <==> FieldsOf(s[i..], fields, delims, limit)
    decreases |s| - i
  {
    hide Fields, FirstOf, FieldsOf;
    var e := FirstOf(s, delims, i);
    NextField(s, delims, i, limit);
    if limit == 0 || e == |s| {
      FieldsWhole(s, i, fields, delims, limit);
    } else {
      FieldsAtFirst(s, i, fields, delims, limit);
      if fields != [] {
        FieldsAreTheOnly(s, e + 1, fields[1..], delims, limit - 1);
        assert fields == [fields[0]] + fields[1..];
      }
    }
  }

  // ---------------------------------------------------------------- JoinStrings

  function Join(parts: seq<string>, delim: string): string {
    if parts == [] then "" else if |parts| == 1 then parts[0]
    else parts[0] + delim + Join(parts[1..], delim)
  }

  lemma {:induction false} JoinLast(parts: seq<string>, delim: string)
    requires |parts| >= 2
    ensures Join(parts, delim) == Join(parts[..|parts| - 1], delim) + delim + parts[|parts| - 1]
  {
    var n := |parts| - 1;
    if n == 1 {
      assert parts[1..] == [parts[1]] && parts[..1] == [parts[0]];
    } else {
      JoinLast(parts[1..], delim);
      assert parts[1..][..n - 1] == parts[..n][1..];
    }
  }

  method JoinStrings(parts: seq<string>, delim: string) returns (result: string)
    ensures result == Join(parts, delim)
  {
    result := "";
    var i := 0;
    while i < |parts|
      invariant 0 <= i <= |parts|
      invariant result == Join(parts[..i], delim)
    {
      assert parts[..i + 1][..i] == parts[..i];
      if i != 0 {
        result := result + delim;
        JoinLast(parts[..i + 1], delim);
      }
      result := result + parts[i];
      i := i + 1;
    }
    assert parts[..|parts|] == parts;
  }

  // ---------------------------------------------------------------- round trips

  lemma JoinOne(part: string, delim: string)
    ensures Join([part], delim) == part
  {}

  lemma JoinCons(first: string, rest: seq<string>, delim: string)
    requires rest != []
    ensures Join([first] + rest, delim) == first + delim + Join(rest, delim)
  {
    assert ([first] + rest)[1..] == rest;
  }

  lemma CutText(s: string, i: nat, e: nat, d: char)
    requires i <= e < |s| && s[e] == d
    ensures s[i..] == s[i..e] + [d] + s[e + 1..]
  {}

  /** Joining what was split gives back the text, for any one-character delimiter
      and however few cuts were allowed. */
  lemma {:induction false} JoinOfSplit(s: string, d: char, i: nat, limit: int)
    requires i <= |s|
    ensures Fields(s, {d}, i, limit) != []
    ensures Join(Fields(s, {d}, i, limit), [d]) == s[i..]
    decreases |s| - i
  {
    hide Join, Fields;
    var e := FirstOf(s, {d}, i);
    NextField(s, {d}, i, limit);
    if limit == 0 || e == |s| {
      JoinOne(s[i..], [d]);
    } else {
      var rest := Fields(s, {d}, e + 1, limit - 1);
      JoinOfSplit(s, d, e + 1, limit - 1);
      var fields := Fields(s, {d}, i, limit);
      assert fields == [s[i..e]] + rest;
      JoinCons(s[i..e], rest, [d]);
      CutText(s, i, e, d);
      assert Join(fields, [d]) == s[i..e] + [d] + s[e + 1..];
    }
  }

  lemma {:induction false} FieldsAreFree(s: string, d: char, i: nat, limit: int)
    requires i <= |s| && limit < 0
    ensures forall k :: 0 <= k < |Fields(s, {d}, i, limit)| ==> d !in Fields(s, {d}, i, limit)[k]
    decreases |s| - i
  {
    var e := FirstOf(s, {d}, i);
    assert d !in s[i..e];
    if e < |s| {
      FieldsAreFree(s, d, e + 1, limit - 1);
    }
  }

  /** Where the search stops after a part that is free of the delimiter. */
  lemma FirstAfter(s: string, d: char, i: nat, part: string, rest: string)
    requires i <= |s| && d !in part && s[i..] == part + rest && (rest == "" || rest[0] == d)
    ensures FirstOf(s, {d}, i) == i + |part| && s[i..i + |part|] == part
  {
    var k := i + |part|;
    assert forall j :: i <= j < k ==> s[j] == s[i..][j - i] == part[j - i];
    assert rest != "" ==> s[k] == s[i..][|part|] == rest[0];
  }

  lemma NextPart(s: string, parts: seq<string>, d: char, i: nat)
    requires |parts| >= 2 && i <= |s| && s[i..] == Join(parts, [d]) && d !in parts[0]
    ensures
      var n := i + |parts[0]|;
      n < |s| && FirstOf(s, {d}, i) == n && s[i..n] == parts[0] && s[n + 1..] == Join(parts[1..], [d])
  {
    var rest := Join(parts[1..], [d]);
    assert s[i..] == parts[0] + ([d] + rest);
    FirstAfter(s, d, i, parts[0], [d] + rest);
    assert s[i + |parts[0]| + 1..] == s[i..][|parts[0]| + 1..] == rest;
  }

  lemma {:induction false} FieldsOfJoin(s: string, parts: seq<string>, d: char, i: nat, limit: int)
    requires parts != [] && limit < 0 && i <= |s| && s[i..] == Join(parts, [d])
    requires forall k :: 0 <= k < |parts| ==> d !in parts[k]
    ensures Fields(s, {d}, i, limit) == parts
    decreases |parts|
  {
    hide Fields, FirstOf;
    NextField(s, {d}, i, limit);
    if |parts| == 1 {
      assert s[i..] == parts[0] + "";
      FirstAfter(s, d, i, parts[0], "");
    } else {
      NextPart(s, parts, d, i);
      FieldsOfJoin(s, parts[1..], d, i + |parts[0]| + 1, limit - 1);
    }
  }

  /** Splitting what was joined gives back the list if and only if the list is not
      empty and none of its strings contains the delimiter. */
  lemma SplitOfJoin(parts: seq<string>, d: char)
    ensures Fields(Join(parts, [d]), {d}, 0, -1) == parts
      <==> parts != [] && forall k :: 0 <= k < |parts| ==> d !in parts[k]
  {
    var s := Join(parts, [d]);
    if parts != [] && forall k :: 0 <= k < |parts| ==> d !in parts[k] {
      assert s[0..] == s;
      FieldsOfJoin(s, parts, d, 0, -1);
    }
    JoinOfSplit(s, d, 0, -1);
    FieldsAreFree(s, d, 0, -1);
  }
}
