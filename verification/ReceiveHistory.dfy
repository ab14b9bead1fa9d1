/** The receive windows told from the packets alone: which packets are taken, when a window
    closes and what it reports (orbit/network_status.cc:714-896). */
module ReceiveHistory {
  import opened Common
  import opened Widths
  import opened ReceiveLoss

  // ---------------------------------------------------------------- told from the packets

  /** The place of the first packet with another number than 0, which opens the window. */
  function Opening(s: seq<Arrival>): (f: nat)
    ensures f <= |s|
  {
    if s == [] || s[0].seqNum != 0 then 0 else 1 + Opening(s[1..])
  }

  lemma {:induction false} OpeningIs(s: seq<Arrival>)
    ensures Opening(s) < |s| ==> s[Opening(s)].seqNum != 0
    ensures forall j :: 0 <= j < Opening(s) ==> s[j].seqNum == 0
  {
    if s != [] && s[0].seqNum == 0 {
      OpeningIs(s[1..]);
    }
  }

  /** The place of the first packet with a number above x. */
  function FirstAbove(s: seq<Arrival>, x: int): (f: nat)
    ensures f <= |s|
  {
    if s == [] || s[0].seqNum > x then 0 else 1 + FirstAbove(s[1..], x)
  }

  lemma {:induction false} FirstAboveIs(s: seq<Arrival>, x: int)
    ensures FirstAbove(s, x) < |s| ==> s[FirstAbove(s, x)].seqNum > x
    ensures forall j :: 0 <= j < FirstAbove(s, x) ==> s[j].seqNum <= x
  {
    if s != [] && s[0].seqNum <= x {
      FirstAboveIs(s[1..], x);
    }
  }

  /** Above all numbers before it. */
  predicate Highest(s: seq<Arrival>, k: int)
    requires 0 <= k < |s|
  {
    forall j :: 0 <= j < k ==> s[j].seqNum < s[k].seqNum
  }

  /** After the window has opened, a packet is taken if its number is the highest so far, or
      if it was skipped, has not been taken yet, and comes no later than 12 after the packet
      that skipped it. */
  ghost predicate Taken(s: seq<Arrival>, k: int)
    requires 0 <= k < |s|
    decreases k
  {
    var f, x := Opening(s), s[k].seqNum;
    var above := FirstAbove(s, x);
    f < k
    && (Highest(s, k)
        || (x > s[f].seqNum && above < k && s[k].t1 <= s[above].t1 + 12
            && forall j :: 0 <= j < k && Taken(s, j) ==> s[j].seqNum != x))
  }

  ghost function CountTaken(s: seq<Arrival>, n: nat): nat
    requires n <= |s|
  {
    if n == 0 then 0 else CountTaken(s, n - 1) + if Taken(s, n - 1) then 1 else 0
  }

  function HighestNumber(s: seq<Arrival>): nat {
    if s == [] then 0 else
      var before := HighestNumber(s[..|s| - 1]);
      if s[|s| - 1].seqNum > before then s[|s| - 1].seqNum else before
  }

  /** When the window began: the end of the one before, or else its first packet; a clock
      that shows 0 is not heard. */
  function Began(after: int, s: seq<Arrival>): int {
    if s == [] then after else
      var before := Began(after, s[..|s| - 1]);
      if before != 0 then before else s[|s| - 1].t0
  }

  /** The last packet of s ends the window. */
  ghost predicate Ends(after: int, s: seq<Arrival>) {
    s != [] && Taken(s, |s| - 1) && s[|s| - 1].t2 - Began(after, s) > 3000
  }

  /** The packets since the last window ended, and when that was. */
  datatype Story = Story(since: seq<Arrival>, after: int)

  ghost function Tell(arrivals: seq<Arrival>): Story {
    if arrivals == [] then Story([], 0) else
      var before, a := Tell(arrivals[..|arrivals| - 1]), arrivals[|arrivals| - 1];
      if Ends(before.after, before.since + [a]) then Story([], a.t2) else Story(before.since + [a], before.after)
  }

  /** What the ended window reports: the numbers from the opening one to the highest, the
      packets counted (zeros before the opening, the opening one, those taken), and the rest. */
  ghost function Report(s: seq<Arrival>): Closed
    requires Opening(s) < |s|
  {
    var expected := Wrap32(HighestNumber(s) - s[Opening(s)].seqNum + 1);
    var received := Wrap32(Opening(s) + 1 + CountTaken(s, |s|));
    Closed(expected, received, Wrap32(expected - received))
  }

  // ---------------------------------------------------------------- one more packet

  lemma {:induction false} OpeningSnoc(s: seq<Arrival>, a: Arrival)
    ensures Opening(s + [a]) == if Opening(s) < |s| then Opening(s) else if a.seqNum != 0 then |s| else |s| + 1
  {
    if s == [] {
      assert [a][1..] == [];
    } else {
      assert (s + [a])[1..] == s[1..] + [a];
      OpeningSnoc(s[1..], a);
    }
  }

  lemma {:induction false} FirstAboveSnoc(s: seq<Arrival>, a: Arrival, x: int)
    ensures FirstAbove(s + [a], x)
         == if FirstAbove(s, x) < |s| then FirstAbove(s, x) else if a.seqNum > x then |s| else |s| + 1
  {
    if s == [] {
      assert [a][1..] == [];
    } else {
      assert (s + [a])[1..] == s[1..] + [a];
      FirstAboveSnoc(s[1..], a, x);
    }
  }

  lemma {:induction false} TakenSnoc(s: seq<Arrival>, a: Arrival, k: int)
    requires 0 <= k < |s|
    ensures Taken(s + [a], k) <==> Taken(s, k)
    decreases k
  {
    var more := s + [a];
    var x := s[k].seqNum;
    forall j | 0 <= j < k ensures Taken(more, j) <==> Taken(s, j) {
      TakenSnoc(s, a, j);
    }
    OpeningSnoc(s, a);
    FirstAboveSnoc(s, a, x);
    assert forall j :: 0 <= j < |s| ==> more[j] == s[j];
    assert Highest(more, k) <==> Highest(s, k);
  }

  lemma {:induction false} CountSnoc(s: seq<Arrival>, a: Arrival, n: nat)
    requires n <= |s|
    ensures CountTaken(s + [a], n) == CountTaken(s, n)
  {
    if n > 0 {
      CountSnoc(s, a, n - 1);
      TakenSnoc(s, a, n - 1);
    }
  }

  /** x was once the highest number. */
  ghost predicate Peak(s: seq<Arrival>, x: int) {
    exists j :: 0 <= j < |s| && Highest(s, j) && s[j].seqNum == x
  }

  lemma PeakSnoc(s: seq<Arrival>, a: Arrival, x: int)
    ensures Peak(s + [a], x) <==> Peak(s, x) || (Highest(s + [a], |s|) && a.seqNum == x)
  {
    var more := s + [a];
    assert more[|s|] == a;
    assert forall j :: 0 <= j < |s| ==> more[j] == s[j];
    assert forall j :: 0 <= j < |s| ==> (Highest(more, j) <==> Highest(s, j));
    if Peak(s, x) {
      var j :| 0 <= j < |s| && Highest(s, j) && s[j].seqNum == x;
      assert Highest(more, j) && more[j].seqNum == x;
    }
    if Highest(more, |s|) && a.seqNum == x {
      assert more[|s|].seqNum == x;
    }
  }

  /** x is the number of the opening packet or of one taken. */
  ghost predicate Counted(s: seq<Arrival>, x: int) {
    (Opening(s) < |s| && s[Opening(s)].seqNum == x) || WasTaken(s, x)
  }

  /** x is the number of a packet taken. */
  ghost predicate WasTaken(s: seq<Arrival>, x: int) {
    exists j :: 0 <= j < |s| && Taken(s, j) && s[j].seqNum == x
  }

  lemma WasTakenSnoc(s: seq<Arrival>, a: Arrival, x: int)
    ensures WasTaken(s + [a], x) <==> WasTaken(s, x) || (Taken(s + [a], |s|) && a.seqNum == x)
  {
    hide Taken;
    var more := s + [a];
    assert more[|s|] == a;
    if WasTaken(s, x) {
      var j :| 0 <= j < |s| && Taken(s, j) && s[j].seqNum == x;
      TakenSnoc(s, a, j);
      assert more[j] == s[j];
    }
    if WasTaken(more, x) {
      var j :| 0 <= j < |more| && Taken(more, j) && more[j].seqNum == x;
      if j < |s| {
        TakenSnoc(s, a, j);
        assert more[j] == s[j];
      }
    }
  }

  lemma CountedSnoc(s: seq<Arrival>, a: Arrival, x: int)
    requires Opening(s) < |s|
    ensures Counted(s + [a], x) <==> Counted(s, x) || (Taken(s + [a], |s|) && a.seqNum == x)
  {
    hide WasTaken, Taken, Opening;
    OpeningSnoc(s, a);
    WasTakenSnoc(s, a, x);
    assert (s + [a])[Opening(s)] == s[Opening(s)];
  }

  lemma {:induction false} HighestBounds(s: seq<Arrival>)
    ensures forall j :: 0 <= j < |s| ==> s[j].seqNum <= HighestNumber(s)
    ensures s != [] ==> Peak(s, HighestNumber(s)) || HighestNumber(s) == 0
    ensures HighestNumber(s) <= MAX_UINT16
  {
    if s != [] {
      var before, a := s[..|s| - 1], s[|s| - 1];
      HighestBounds(before);
      assert s == before + [a];
      PeakSnoc(before, a, HighestNumber(s));
      forall j | 0 <= j < |s| ensures s[j].seqNum <= HighestNumber(s) {
        assert j < |before| ==> s[j] == before[j];
      }
      if a.seqNum > HighestNumber(before) {
        assert forall j :: 0 <= j < |before| ==> s[j] == before[j];
        assert Highest(s, |before|);
      }
    }
  }

  lemma HighestSnoc(s: seq<Arrival>, a: Arrival)
    ensures HighestNumber(s + [a]) == if a.seqNum > HighestNumber(s) then a.seqNum else HighestNumber(s)
    ensures Highest(s + [a], |s|) <==> (s == [] || a.seqNum > HighestNumber(s))
  {
    assert (s + [a])[..|s|] == s;
    HighestBounds(s);
    assert forall j :: 0 <= j < |s| ==> (s + [a])[j] == s[j];
    if s != [] && a.seqNum <= HighestNumber(s) {
      if HighestNumber(s) == 0 {
        assert (s + [a])[0].seqNum >= 0;
      } else {
        var j :| 0 <= j < |s| && Highest(s, j) && s[j].seqNum == HighestNumber(s);
        assert (s + [a])[j].seqNum == HighestNumber(s);
      }
    }
  }

  // ---------------------------------------------------------------- the window is as told

  ghost predicate AcceptedTold(w: Window, s: seq<Arrival>)
    requires Opening(s) < |s|
  {
    && |w.accepted| == Opening(s) + 1 + CountTaken(s, |s|)
    && forall x :: x != 0 ==> (x in w.accepted <==> Counted(s, x))
  }

  ghost predicate GapTold(w: Window, s: seq<Arrival>, x: int) {
    && (x in w.gaps <==> w.minSeq < x < w.maxSeq && !Peak(s, x))
    && (x in w.gaps ==> FirstAbove(s, x) < |s| && w.gaps[x] == s[FirstAbove(s, x)].t1)
  }

  ghost predicate GapsTold(w: Window, s: seq<Arrival>) {
    forall x :: GapTold(w, s, x)
  }

  /** The fields of the window, each from the packets since the last one ended. */
  ghost predicate AsTold(w: Window, s: seq<Arrival>) {
    var f := Opening(s);
    && w.maxSeq == HighestNumber(s)
    && w.count == Wrap32(|w.accepted|)
    && if f == |s| then
         w.minSeq == 0 && w.gaps == map[] && |w.accepted| == |s| && (forall i :: 0 <= i < |w.accepted| ==> w.accepted[i] == 0)
       else w.minSeq == s[f].seqNum && AcceptedTold(w, s) && GapsTold(w, s)
  }

  /** Before the window opens nothing is taken. */
  lemma ClosedYet(w: Window, s: seq<Arrival>, a: Arrival)
    requires AsTold(w, s) && Opening(s) == |s|
    ensures AsTold(Open(w, a), s + [a]) && Admit(Open(w, a), a).None? && !Taken(s + [a], |s|)
  {
    hide Wrap32, Opening, HighestNumber, AcceptedTold, GapsTold, Highest, Taken;
    var o := Open(w, a);
    OpeningSnoc(s, a);
    HighestSnoc(s, a);
    AllZero(s);
    TakenMeans(s + [a], |s|);
    WrapSum32(|w.accepted|, 1);
    assert o.accepted == w.accepted + [a.seqNum];
    assert a.seqNum as int == o.accepted[|w.accepted|];
    if a.seqNum != 0 {
      FirstCounted(w, s, a);
      NoGaps(o, s + [a], a.seqNum);
    }
  }

  lemma FirstCounted(w: Window, s: seq<Arrival>, a: Arrival)
    requires AsTold(w, s) && Opening(s) == |s| && a.seqNum != 0
    ensures Opening(s + [a]) == |s| && AcceptedTold(Open(w, a), s + [a])
  {
    var more, o := s + [a], Open(w, a);
    OpeningSnoc(s, a);
    NoneTaken(s);
    CountSnoc(s, a, |s|);
    NotTaken(more, |s|);
    assert more[|s|] == a;
    forall x | x != 0 ensures x in o.accepted <==> Counted(more, x) {
      SnocElements(w.accepted, a.seqNum);
    }
  }

  lemma NoGaps(w: Window, s: seq<Arrival>, x: int)
    requires w.gaps == map[] && w.minSeq == w.maxSeq
    ensures GapsTold(w, s)
  {
    hide Peak, FirstAbove;
  }

  lemma {:induction false} AllZero(s: seq<Arrival>)
    requires Opening(s) == |s|
    ensures HighestNumber(s) == 0
  {
    if s != [] {
      var before := s[..|s| - 1];
      assert s == before + [s[|s| - 1]];
      OpeningSnoc(before, s[|s| - 1]);
      AllZero(before);
    }
  }

  lemma NotTaken(s: seq<Arrival>, n: int)
    requires 0 <= n < |s| && Opening(s) == n
    ensures forall j :: 0 <= j <= n ==> !Taken(s, j)
  {}

  lemma {:induction false} NoneTaken(s: seq<Arrival>)
    requires Opening(s) == |s|
    ensures CountTaken(s, |s|) == 0
  {
    NoneTakenUpto(s, |s|);
  }

  lemma {:induction false} NoneTakenUpto(s: seq<Arrival>, n: nat)
    requires n <= |s| && Opening(s) == |s|
    ensures CountTaken(s, n) == 0
  {
    if n > 0 {
      NoneTakenUpto(s, n - 1);
    }
  }

  /** A peak after the opening was taken. */
  lemma PeakIsCounted(s: seq<Arrival>, x: int)
    requires Opening(s) < |s| && Peak(s, x) && x != 0
    ensures Counted(s, x)
  {
    hide Taken, Opening;
    OpeningIs(s);
    var j :| 0 <= j < |s| && Highest(s, j) && s[j].seqNum == x;
    TakenMeans(s, j);
  }

  /** Taken, as the packets before it tell. */
  lemma TakenLast(s: seq<Arrival>, a: Arrival)
    requires Opening(s) < |s|
    ensures
      var x, above := a.seqNum, FirstAbove(s, a.seqNum);
      Taken(s + [a], |s|)
      <==> x > HighestNumber(s)
           || (x > s[Opening(s)].seqNum && above < |s| && a.t1 <= s[above].t1 + 12 && !Counted(s, x))
  {
    hide Highest;
    var more, x := s + [a], a.seqNum as int;
    OpeningSnoc(s, a);
    HighestSnoc(s, a);
    FirstAboveSnoc(s, a, x);
    assert more[|s|] == a;
    forall j | 0 <= j < |s| ensures more[j] == s[j] && (Taken(more, j) <==> Taken(s, j)) {
      TakenSnoc(s, a, j);
    }
    TakenMeans(more, |s|);
  }

  lemma TakenMeans(s: seq<Arrival>, k: int)
    requires 0 <= k < |s|
    ensures
      var f, x := Opening(s), s[k].seqNum;
      var above := FirstAbove(s, x);
      Taken(s, k)
      <==> f < k && (Highest(s, k)
                     || (x > s[f].seqNum && above < k && s[k].t1 <= s[above].t1 + 12
                         && forall j :: 0 <= j < k && Taken(s, j) ==> s[j].seqNum != x))
  {}

  /** In an open window the packets admitted are those taken. */
  lemma AdmittedIsTaken(w: Window, s: seq<Arrival>, a: Arrival)
    requires AsTold(w, s) && Opening(s) < |s|
    ensures Admit(w, a).Some? <==> Taken(s + [a], |s|)
  {
    hide Taken, Highest, Peak, Counted, WithGap;
    var x := a.seqNum as int;
    TakenLast(s, a);
    HighestIsPeak(s);
    if x <= w.maxSeq && x != 0 {
      assert GapTold(w, s, x);
      if Peak(s, x) {
        PeakIsCounted(s, x);
      } else {
        NotHighest(s, x);
      }
    } else if x == 0 {
      assert GapTold(w, s, 0);
    }
  }

  /** Below the highest number something is above. */
  lemma NotHighest(s: seq<Arrival>, x: int)
    requires Opening(s) < |s| && x <= HighestNumber(s) && x != 0 && !Peak(s, x)
    ensures x < HighestNumber(s) && FirstAbove(s, x) < |s|
  {
    HighestBounds(s);
    OpeningIs(s);
    FirstAboveIs(s, x);
    if HighestNumber(s) > 0 {
      var j :| 0 <= j < |s| && Highest(s, j) && s[j].seqNum == HighestNumber(s);
    }
  }

  /** A taken packet leaves the window as told. */
  lemma TakenTold(w: Window, s: seq<Arrival>, a: Arrival)
    requires AsTold(w, s) && Opening(s) < |s| && Admit(w, a).Some?
    ensures AsTold(Push(Admit(w, a).value, a.seqNum), s + [a])
  {
    hide Taken, Highest, GapsTold, AcceptedTold, Wrap32, WithGap;
    OpeningSnoc(s, a);
    HighestSnoc(s, a);
    assert (s + [a])[Opening(s)] == s[Opening(s)];
    WrapSum32(|w.accepted|, 1);
    AdmittedIsTaken(w, s, a);
    TakenAccepted(w, Push(Admit(w, a).value, a.seqNum), s, a);
    TakenGaps(w, s, a);
  }

  lemma TakenAccepted(w: Window, p: Window, s: seq<Arrival>, a: Arrival)
    requires Opening(s) < |s| && AcceptedTold(w, s) && Taken(s + [a], |s|) && p.accepted == w.accepted + [a.seqNum]
    ensures Opening(s + [a]) < |s| + 1 && AcceptedTold(p, s + [a])
  {
    hide Taken, Counted, Opening, CountTaken;
    OpeningSnoc(s, a);
    OneMoreTaken(s, a);
    forall x | x != 0 ensures x in p.accepted <==> Counted(s + [a], x) {
      CountedSnoc(s, a, x);
      SnocElement(w.accepted, a.seqNum, x);
    }
  }

  lemma OneMoreTaken(s: seq<Arrival>, a: Arrival)
    ensures CountTaken(s + [a], |s| + 1) == CountTaken(s, |s|) + if Taken(s + [a], |s|) then 1 else 0
  {
    hide Taken;
    CountSnoc(s, a, |s|);
  }

  lemma SnocElement(xs: seq<int>, y: int, x: int)
    ensures x in xs + [y] <==> x in xs || x == y
  {}

  lemma SnocElements(xs: seq<int>, y: int)
    ensures forall x :: x in xs + [y] <==> x in xs || x == y
  {}

  lemma TakenGaps(w: Window, s: seq<Arrival>, a: Arrival)
    requires AsTold(w, s) && Opening(s) < |s| && Admit(w, a).Some?
    ensures GapsTold(Push(Admit(w, a).value, a.seqNum), s + [a])
  {
    hide Taken, Highest, Counted, Peak, AcceptedTold, Wrap32, GapTold;
    var more, p := s + [a], Push(Admit(w, a).value, a.seqNum);
    forall x ensures GapTold(p, more, x) {
      assert GapTold(w, s, x);
      if a.seqNum > w.maxSeq {
        HigherGap(w, s, a, x);
      } else {
        LowerGap(w, p, s, a, x);
      }
    }
  }

  lemma HigherGap(w: Window, s: seq<Arrival>, a: Arrival, x: int)
    requires GapTold(w, s, x) && w.maxSeq == HighestNumber(s) && Opening(s) < |s| && w.minSeq == s[Opening(s)].seqNum
    requires a.seqNum > w.maxSeq
    ensures GapTold(Push(Admit(w, a).value, a.seqNum), s + [a], x)
  {
    hide Highest, Peak, Wrap32;
    var more := s + [a];
    HighestSnoc(s, a);
    PeakSnoc(s, a, x);
    FirstAboveSnoc(s, a, x);
    HighestIsPeak(s);
    HighestBounds(s);
    WithGapContents(w.gaps, w.maxSeq + 1, a.seqNum, a.t1);
    assert more[|s|] == a && forall j :: 0 <= j < |s| ==> more[j] == s[j];
    if x > HighestNumber(s) {
      PeakBelow(s, x);
      FirstAboveIs(s, x);
    }
  }

  lemma LowerGap(w: Window, v: Window, s: seq<Arrival>, a: Arrival, x: int)
    requires GapTold(w, s, x) && w.maxSeq == HighestNumber(s) && s != []
    requires a.seqNum <= w.maxSeq && v.gaps == w.gaps && v.minSeq == w.minSeq && v.maxSeq == w.maxSeq
    ensures GapTold(v, s + [a], x)
  {
    hide Highest, Peak;
    HighestSnoc(s, a);
    PeakSnoc(s, a, x);
    FirstAboveSnoc(s, a, x);
    assert forall j :: 0 <= j < |s| ==> (s + [a])[j] == s[j];
  }

  lemma HighestIsPeak(s: seq<Arrival>)
    requires Opening(s) < |s|
    ensures Peak(s, HighestNumber(s)) && s[Opening(s)].seqNum <= HighestNumber(s)
  {
    HighestBounds(s);
    OpeningIs(s);
  }

  lemma PeakBelow(s: seq<Arrival>, x: int)
    requires x > HighestNumber(s)
    ensures !Peak(s, x)
  {
    HighestBounds(s);
  }

  /** A packet passed over leaves it as told. */
  lemma PassedTold(w: Window, s: seq<Arrival>, a: Arrival)
    requires AsTold(w, s) && Opening(s) < |s| && Admit(w, a).None?
    ensures AsTold(w, s + [a])
  {
    hide Taken, Highest, Peak, Counted, Wrap32, GapTold;
    var more := s + [a];
    AdmittedIsTaken(w, s, a);
    OpeningSnoc(s, a);
    HighestSnoc(s, a);
    CountSnoc(s, a, |s|);
    assert more[Opening(s)] == s[Opening(s)];
    forall x | x != 0 ensures x in w.accepted <==> Counted(more, x) {
      CountedSnoc(s, a, x);
    }
    forall x ensures GapTold(w, more, x) {
      LowerGap(w, w, s, a, x);
    }
  }

  // ---------------------------------------------------------------- every run

  lemma BeganSnoc(after: int, s: seq<Arrival>, a: Arrival)
    ensures Began(after, s + [a]) == if Began(after, s) != 0 then Began(after, s) else a.t0
  {
    assert (s + [a])[..|s|] == s;
  }

  lemma EmptyTold(w: Window, now: int)
    ensures AsTold(Close(w, now), []) && AsTold(FRESH, [])
  {}

  lemma AnyTime(w: Window, s: seq<Arrival>, time: int)
    requires AsTold(w, s)
    ensures AsTold(w.(lastUpdate := time), s)
  {
    hide Peak, Counted, FirstAbove;
    if Opening(s) < |s| {
      forall x ensures GapTold(w.(lastUpdate := time), s, x) {
        assert GapTold(w, s, x);
      }
    }
  }

  /** The window once the packet is in, before the interval test. */
  lemma OpenedTold(w: Window, s: seq<Arrival>, a: Arrival)
    requires AsTold(w, s)
    ensures
      var o, more := Open(w, a), s + [a];
      && (Admit(o, a).Some? <==> Taken(more, |s|))
      && (if Admit(o, a).Some? then AsTold(Push(Admit(o, a).value, a.seqNum), more) else AsTold(o, more))
      && o.lastUpdate == (if w.lastUpdate != 0 then w.lastUpdate else a.t0)
      && (Admit(o, a).Some? ==> Admit(o, a).value.lastUpdate == o.lastUpdate && Opening(more) < |s|)
  {
    hide AsTold, Taken, Admit;
    if Opening(s) == |s| {
      ClosedYet(w, s, a);
    } else {
      OpenIsOpen(w, s, a);
      var o := Open(w, a);
      AnyTime(w, s, o.lastUpdate);
      AdmittedIsTaken(o, s, a);
      OpeningSnoc(s, a);
      if Admit(o, a).Some? {
        TakenTold(o, s, a);
      } else {
        PassedTold(o, s, a);
      }
    }
    AdmitKeepsTime(Open(w, a), a);
  }

  lemma OpenIsOpen(w: Window, s: seq<Arrival>, a: Arrival)
    requires AsTold(w, s) && Opening(s) < |s|
    ensures Open(w, a) == w.(lastUpdate := if w.lastUpdate != 0 then w.lastUpdate else a.t0)
  {
    hide Peak, Counted, FirstAbove;
    HighestIsPeak(s);
    OpeningIs(s);
  }

  lemma AdmitKeepsTime(w: Window, a: Arrival)
    ensures Admit(w, a).Some? ==> Admit(w, a).value.lastUpdate == w.lastUpdate
  {
    hide WithGap;
  }

  lemma ReportIs(w: Window, s: seq<Arrival>, now: int)
    requires AsTold(w, s) && Opening(s) < |s|
    ensures
      var c := Close(w, now);
      && Closed(c.expected, w.count, c.lost) == Report(s)
      && c.lastUpdate == now
      && (c.expected > 0 ==> c.fraction == Wrap32(c.lost * 100) / c.expected)
  {
    hide Wrap32, AcceptedTold, GapsTold, Opening, HighestNumber;
    assert |w.accepted| == Opening(s) + 1 + CountTaken(s, |s|) by { AcceptedCount(w, s); }
  }

  lemma AcceptedCount(w: Window, s: seq<Arrival>)
    requires AsTold(w, s) && Opening(s) < |s|
    ensures |w.accepted| == Opening(s) + 1 + CountTaken(s, |s|)
  {
    hide Wrap32, GapsTold, Counted;
  }

  lemma StepTold(w: Window, s: seq<Arrival>, after: int, a: Arrival)
    requires AsTold(w, s) && w.lastUpdate == Began(after, s)
    ensures
      var more, (next, closed) := s + [a], Step(w, a);
      if Ends(after, more) then
        && Opening(more) < |more| && closed == Some(Report(more)) && AsTold(next, []) && next.lastUpdate == a.t2
        && (next.expected > 0 ==> next.fraction == Wrap32(next.lost * 100) / next.expected)
      else closed == None && AsTold(next, more) && next.lastUpdate == Began(after, more)
  {
    hide AsTold, Taken, Open, Admit, Close, Report, Wrap32;
    var more := s + [a];
    var o := Open(w, a);
    OpenedTold(w, s, a);
    BeganSnoc(after, s, a);
    assert more[|s|] == a;
    if Admit(o, a).Some? {
      var pushed := Push(Admit(o, a).value, a.seqNum);
      EmptyTold(pushed, a.t2);
      ReportIs(pushed, more, a.t2);
      CloseReturns(pushed, a.t2);
    }
  }

  lemma CloseReturns(w: Window, now: int)
    ensures Close(w, now).lastUpdate == now
  {}

  /** Over every run a window closes on exactly the packets that end it, and reports what
      those since the last one tell. */
  lemma {:induction false} RunIsAsTold(arrivals: seq<Arrival>)
    ensures AsTold(StepAll(FRESH, arrivals), Tell(arrivals).since)
    ensures StepAll(FRESH, arrivals).lastUpdate == Began(Tell(arrivals).after, Tell(arrivals).since)
    decreases |arrivals|
  {
    hide AsTold, Step, Ends;
    if arrivals == [] {
      EmptyTold(FRESH, 0);
    } else {
      var before, a := arrivals[..|arrivals| - 1], arrivals[|arrivals| - 1];
      RunIsAsTold(before);
      StepTold(StepAll(FRESH, before), Tell(before).since, Tell(before).after, a);
    }
  }

  lemma ClosesAsTold(arrivals: seq<Arrival>, a: Arrival)
    ensures
      var t := Tell(arrivals);
      var (next, closed) := Step(StepAll(FRESH, arrivals), a);
      if Ends(t.after, t.since + [a]) then
        && Opening(t.since + [a]) < |t.since + [a]| && closed == Some(Report(t.since + [a]))
        && (next.expected > 0 ==> next.fraction == Wrap32(next.lost * 100) / next.expected)
      else closed == None
  {
    hide AsTold, Step, Ends, Report, StepAll, Tell, Wrap32;
    RunIsAsTold(arrivals);
    StepTold(StepAll(FRESH, arrivals), Tell(arrivals).since, Tell(arrivals).after, a);
  }

  /** Packet k closes a window. */
  ghost predicate ClosesAt(arrivals: seq<Arrival>, k: int)
    requires 0 <= k < |arrivals|
  {
    Step(StepAll(FRESH, arrivals[..k]), arrivals[k]).1.Some?
  }

  lemma {:induction false} BeganAfter(after: int, s: seq<Arrival>)
    requires after != 0
    ensures Began(after, s) == after
  {
    if s != [] {
      BeganAfter(after, s[..|s| - 1]);
    }
  }

  lemma {:induction false} AfterClosing(arrivals: seq<Arrival>, i: int, n: int)
    requires 0 <= i < n <= |arrivals| && ClosesAt(arrivals, i)
    requires forall k :: 0 <= k < |arrivals| ==> arrivals[k].t2 != 0
    ensures Tell(arrivals[..n]).after != 0 && Tell(arrivals[..n]).after >= arrivals[i].t2
    decreases n
  {
    hide Ends, Step, StepAll, Report;
    var a := arrivals[n - 1];
    assert arrivals[..n][..n - 1] == arrivals[..n - 1];
    ClosesAsTold(arrivals[..n - 1], a);
    var t := Tell(arrivals[..n - 1]);
    if n - 1 > i {
      AfterClosing(arrivals, i, n - 1);
      BeganAfter(t.after, t.since + [a]);
      EndsLater(t.after, t.since, a);
    }
  }

  lemma EndsLater(after: int, s: seq<Arrival>, a: Arrival)
    ensures Ends(after, s + [a]) ==> a.t2 > Began(after, s + [a]) + 3000
  {
    assert (s + [a])[|s|] == a;
  }

  /** Any two closings of a medium are more than an interval apart. */
  lemma ClosingsApart(arrivals: seq<Arrival>, i: int, j: int)
    requires 0 <= i < j < |arrivals| && ClosesAt(arrivals, i) && ClosesAt(arrivals, j)
    requires forall k :: 0 <= k < |arrivals| ==> arrivals[k].t2 != 0
    ensures arrivals[j].t2 - arrivals[i].t2 > 3000
  {
    hide Tell, Ends, Step, StepAll, Report;
    AfterClosing(arrivals, i, j);
    var t := Tell(arrivals[..j]);
    ClosesAsTold(arrivals[..j], arrivals[j]);
    BeganAfter(t.after, t.since + [arrivals[j]]);
    EndsLater(t.after, t.since, arrivals[j]);
  }

  // ---------------------------------------------------------------- what is shown

  /** The reports of the windows that have ended, in order. */
  ghost function Reports(arrivals: seq<Arrival>): seq<Closed> {
    if arrivals == [] then [] else
      var before, a := arrivals[..|arrivals| - 1], arrivals[|arrivals| - 1];
      var t := Tell(before);
      if Ends(t.after, t.since + [a]) then Reports(before) + [Report(t.since + [a])] else Reports(before)
  }

  function LastExpected(reports: seq<Closed>): int {
    if reports == [] then 0 else reports[|reports| - 1].expected
  }

  function LastLost(reports: seq<Closed>): int {
    if reports == [] then 0 else reports[|reports| - 1].lost
  }

  function SumLost(reports: seq<Closed>): int {
    if reports == [] then 0 else SumLost(reports[..|reports| - 1]) + reports[|reports| - 1].lost
  }

  /** What a medium shows: the last report, and the losses of all in 32 bits. */
  ghost predicate Shows(w: Window, reports: seq<Closed>) {
    && w.expected == LastExpected(reports) && w.lost == LastLost(reports)
    && w.cumulativeLost == SumLost(reports) % 0x1_0000_0000
  }

  lemma StepShows(w: Window, a: Arrival)
    ensures
      var (next, closed) := Step(w, a);
      match closed
      case None =>
        next.expected == w.expected && next.lost == w.lost && next.cumulativeLost == w.cumulativeLost && next.fraction == w.fraction
      case Some(c) =>
        next.expected == c.expected && next.lost == c.lost && next.cumulativeLost == Wrap32(w.cumulativeLost + c.lost)
  {
    hide Wrap32, WithGap;
  }

  lemma OneMoreReport(reports: seq<Closed>, c: Closed)
    ensures
      var more := reports + [c];
      LastExpected(more) == c.expected && LastLost(more) == c.lost && SumLost(more) == SumLost(reports) + c.lost
  {
    assert (reports + [c])[..|reports|] == reports;
  }

  lemma ShowsNext(w: Window, a: Arrival, reports: seq<Closed>)
    requires Shows(w, reports)
    ensures
      var (next, closed) := Step(w, a);
      Shows(next, if closed.Some? then reports + [closed.value] else reports)
  {
    hide Step, LastExpected, LastLost, SumLost, Wrap32;
    StepShows(w, a);
    var closed := Step(w, a).1;
    if closed.Some? {
      OneMoreReport(reports, closed.value);
      WrapSum32(SumLost(reports), closed.value.lost);
      IsModulo(SumLost(reports));
      IsModulo(SumLost(reports) + closed.value.lost);
    }
  }

  /** After any run a medium shows the last ended window and the losses of all of them. */
  lemma {:induction false} StatisticsAreTold(arrivals: seq<Arrival>)
    ensures Shows(StepAll(FRESH, arrivals), Reports(arrivals))
    decreases |arrivals|
  {
    hide *;
    if arrivals == [] {
      NoReports();
    } else {
      var before, a := arrivals[..|arrivals| - 1], arrivals[|arrivals| - 1];
      assert arrivals == before + [a];
      StatisticsAreTold(before);
      ReportsSnoc(before, a);
      StepAllSnoc(FRESH, before, a);
      ShowsNext(StepAll(FRESH, before), a, Reports(before));
    }
  }

  lemma ReportsSnoc(arrivals: seq<Arrival>, a: Arrival)
    ensures
      var closed := Step(StepAll(FRESH, arrivals), a).1;
      Reports(arrivals + [a]) == if closed.Some? then Reports(arrivals) + [closed.value] else Reports(arrivals)
  {
    hide Step, StepAll, Tell, Ends, Report, Opening;
    assert (arrivals + [a])[..|arrivals|] == arrivals;
    ClosesAsTold(arrivals, a);
  }

  lemma IsModulo(x: int)
    ensures Wrap32(x) == x % 0x1_0000_0000
  {}

  lemma NoReports()
    ensures Shows(FRESH, []) && Reports([]) == [] && StepAll(FRESH, []) == FRESH
  {}

  /** The packets of one medium. */
  function Of(packets: seq<(bool, Arrival)>, isVideo: bool): seq<Arrival> {
    if packets == [] then [] else
      var before, last := Of(packets[..|packets| - 1], isVideo), packets[|packets| - 1];
      if last.0 == isVideo then before + [last.1] else before
  }

  /** The percentage over the last ended windows of both media; it stays while there is none. */
  ghost function Percentage(packets: seq<(bool, Arrival)>): int {
    if packets == [] then 0 else
      var video, audio := Reports(Of(packets, true)), Reports(Of(packets, false));
      var expected := (LastExpected(video) + LastExpected(audio)) % 0x1_0000_0000;
      var lost := (LastLost(video) + LastLost(audio)) % 0x1_0000_0000;
      if expected > 0 then (lost * 100) % 0x1_0000_0000 / expected else Percentage(packets[..|packets| - 1])
  }

  lemma CombinedShows(video: Window, audio: Window, was: uint32, v: seq<Closed>, a: seq<Closed>)
    requires Shows(video, v) && Shows(audio, a)
    ensures
      var expected := (LastExpected(v) + LastExpected(a)) % 0x1_0000_0000;
      var lost := (LastLost(v) + LastLost(a)) % 0x1_0000_0000;
      CombinedFraction(video, audio, was) == if expected > 0 then (lost * 100) % 0x1_0000_0000 / expected else was as int
  {
    hide LastExpected, LastLost, SumLost;
  }

  lemma OfOne(packets: seq<(bool, Arrival)>, last: (bool, Arrival), isVideo: bool)
    ensures Of(packets + [last], isVideo) == if last.0 == isVideo then Of(packets, isVideo) + [last.1] else Of(packets, isVideo)
  {
    assert (packets + [last])[..|packets|] == packets;
  }

  lemma StepAllSnoc(w: Window, arrivals: seq<Arrival>, a: Arrival)
    ensures StepAll(w, arrivals + [a]) == Step(StepAll(w, arrivals), a).0
  {
    hide Step;
    assert (arrivals + [a])[..|arrivals|] == arrivals;
  }

  lemma BothNext(b: Both, isVideo: bool, a: Arrival)
    ensures
      var c := StatisticBoth(b, isVideo, a);
      && c.video.window == (if isVideo then Step(b.video.window, a).0 else b.video.window)
      && c.audio.window == (if isVideo then b.audio.window else Step(b.audio.window, a).0)
      && c.fraction == CombinedFraction(c.video.window, c.audio.window, b.fraction)
  {
    hide Step, CombinedFraction, ZerosAfter, Missing, Last;
  }

  /** Of packets of both media in any order each window sees its own, and the percentage shown
      is that of the last ended windows together. */
  lemma {:induction false} PercentageIsTold(packets: seq<(bool, Arrival)>)
    ensures RunBoth(packets).video.window == StepAll(FRESH, Of(packets, true))
    ensures RunBoth(packets).audio.window == StepAll(FRESH, Of(packets, false))
    ensures RunBoth(packets).fraction == Percentage(packets)
    decreases |packets|
  {
    hide Step, StepAll, Of, Shows, Reports, LastExpected, LastLost, StatisticBoth, CombinedFraction;
    if packets == [] {
      NothingShown();
    } else {
      var before, last := packets[..|packets| - 1], packets[|packets| - 1];
      assert packets == before + [last];
      PercentageIsTold(before);
      BothNext(RunBoth(before), last.0, last.1);
      OfOne(before, last, true);
      OfOne(before, last, false);
      StepAllSnoc(FRESH, Of(before, last.0), last.1);
      StatisticsAreTold(Of(packets, true));
      StatisticsAreTold(Of(packets, false));
      var b := RunBoth(packets);
      CombinedShows(b.video.window, b.audio.window, RunBoth(before).fraction, Reports(Of(packets, true)), Reports(Of(packets, false)));
    }
  }

  lemma NothingShown()
    ensures Of([], true) == Of([], false) == [] && StepAll(FRESH, []) == FRESH
  {}
}
