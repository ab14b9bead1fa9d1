/** Receive-side loss accounting (orbit/network_status.cc:689-896). Video and audio
    run the same code on their own fields; a Window holds one medium's fields. */
module ReceiveLoss {
  import opened Common
  import opened Widths

  const UPDATE_INTERVAL := 3000
  const SEQ_MISSING_WAIT := 12000

  datatype Window = Window(
    lastUpdate: int,
    maxSeq: uint32,
    minSeq: uint32,
    count: uint32,
    accepted: seq<int>,
    gaps: map<int, int>,
    fraction: uint32,
    cumulativeLost: uint32,
    expected: uint32,
    lost: uint32)

  const FRESH := Window(0, 0, 0, 0, [], map[], 0, 0, 0, 0)

  /** A packet and what the clock showed on entry, at the gap or deadline test,
      and at the interval test. */
  datatype Arrival = Arrival(seqNum: uint16, t0: int, t1: int, t2: int)

  /** What a window reports when it closes. */
  datatype Closed = Closed(expected: int, received: int, lost: int)

  // ---------------------------------------------------------------- one packet

  function Open(w: Window, a: Arrival): Window {
    var w1 := if w.lastUpdate == 0 then w.(lastUpdate := a.t0) else w;
    var w2 := if w1.maxSeq == 0 then w1.(maxSeq := a.seqNum) else w1;
    if w2.minSeq == 0
    then w2.(minSeq := a.seqNum, accepted := w2.accepted + [a.seqNum], count := Wrap32(w2.count + 1))
    else w2
  }

  /** The numbers of lo..hi, hi excluded, all found missing at the same time. */
  function WithGap(gaps: map<int, int>, lo: int, hi: int, time: int): map<int, int>
    decreases hi - lo
  {
    if hi <= lo then gaps else WithGap(gaps, lo, hi - 1, time)[hi - 1 := time]
  }

  lemma {:induction false} WithGapContents(gaps: map<int, int>, lo: int, hi: int, time: int)
    ensures forall x :: x in WithGap(gaps, lo, hi, time) <==> x in gaps || lo <= x < hi
    ensures forall x :: x in WithGap(gaps, lo, hi, time) ==>
      WithGap(gaps, lo, hi, time)[x] == if lo <= x < hi then time else gaps[x]
    decreases if lo < hi then hi - lo else 0
  {
    if lo < hi {
      WithGapContents(gaps, lo, hi - 1, time);
      assert WithGap(gaps, lo, hi, time) == WithGap(gaps, lo, hi - 1, time)[hi - 1 := time];
    } else {
      assert WithGap(gaps, lo, hi, time) == gaps;
    }
  }

  /** An opened window after the new/old test, or None when the packet is ignored. */
  function Admit(w: Window, a: Arrival): Option<Window> {
    if a.seqNum - w.maxSeq > 0 then
      Some(w.(gaps := WithGap(w.gaps, w.maxSeq + 1, a.seqNum, a.t1), maxSeq := a.seqNum))
    else if a.seqNum as int in w.accepted then None
    else if a.seqNum as int !in w.gaps then None
    else if a.t1 > w.gaps[a.seqNum as int] + SEQ_MISSING_WAIT / 1000 then None
    else Some(w)
  }

  function Push(w: Window, s: uint16): Window {
    w.(accepted := w.accepted + [s], count := Wrap32(w.count + 1))
  }

  function Percent(lost: uint32, total: uint32): uint32
    requires total > 0
  {
    QuotientSmaller(Wrap32(lost * 100), total);
    Wrap32(lost * 100) / total
  }

  function Close(w: Window, now: int): Window {
    var expected := Wrap32(w.maxSeq - w.minSeq + 1);
    var lost := Wrap32(expected - w.count);
    Window(now, 0, 0, 0, [], map[],
           if expected > 0 then Percent(lost, expected) else w.fraction,
           Wrap32(w.cumulativeLost + lost), expected, lost)
  }

  function Step(w: Window, a: Arrival): (Window, Option<Closed>) {
    var openedWindow := Open(w, a);
    var admitted := Admit(openedWindow, a);
    if admitted.None? then (openedWindow, None) else
      var pushed := Push(admitted.value, a.seqNum);
      if a.t2 - pushed.lastUpdate > UPDATE_INTERVAL then
        var closed := Close(pushed, a.t2);
        (closed, Some(Closed(closed.expected, pushed.count, closed.lost)))
      else (pushed, None)
  }

  // ---------------------------------------------------------------- invariant

  ghost predicate Distinct(xs: seq<int>) {
    forall i, j :: 0 <= i < j < |xs| ==> xs[i] != xs[j]
  }

  /** The accepted numbers are distinct and in range, there are count of them, and
      with the gap keys they cover the range from minSeq to maxSeq exactly. */
  ghost predicate Covers(w: Window) {
    && 0 < w.minSeq <= w.maxSeq <= MAX_UINT16
    && w.count == |w.accepted|
    && Distinct(w.accepted)
    && (forall i :: 0 <= i < |w.accepted| ==> w.minSeq <= w.accepted[i] <= w.maxSeq)
    && (forall x :: x in w.gaps ==> w.minSeq < x < w.maxSeq)
    && (forall x :: w.minSeq <= x <= w.maxSeq ==> x in w.accepted || x in w.gaps)
  }

  /** The numbers of the window that were never accepted. */
  ghost function Missing(w: Window): set<int> {
    set x | w.minSeq <= x <= w.maxSeq && x !in w.accepted
  }

  // ---------------------------------------------------------------- counting

  ghost function Range(lo: int, hi: int): (r: set<int>)
    ensures forall x :: x in r <==> lo <= x <= hi
    ensures |r| == if lo <= hi then hi - lo + 1 else 0
    decreases hi - lo
  {
    if lo > hi then {} else Range(lo, hi - 1) + {hi}
  }

  ghost function Elements(xs: seq<int>): set<int> {
    set x | x in xs
  }

  lemma {:induction false} DistinctCount(xs: seq<int>)
    requires Distinct(xs)
    ensures |Elements(xs)| == |xs|
  {
    if xs != [] {
      var n := |xs| - 1;
      DistinctCount(xs[..n]);
      assert xs == xs[..n] + [xs[n]];
      assert Elements(xs) == Elements(xs[..n]) + {xs[n]};
    }
  }

  /** Expected minus received is the number of missing ones, and never underflows. */
  lemma MissingCount(w: Window)
    requires Covers(w)
    ensures 1 <= w.maxSeq - w.minSeq + 1 <= 0x1_0000
    ensures w.count <= w.maxSeq - w.minSeq + 1
    ensures |Missing(w)| == w.maxSeq - w.minSeq + 1 - w.count
  {
    DistinctCount(w.accepted);
    var range, got := Range(w.minSeq, w.maxSeq), Elements(w.accepted);
    assert Missing(w) == range - got;
    assert got <= range;
    assert |range - got| == |range| - |got| by {
      assert range == (range - got) + got;
    }
  }

  // ---------------------------------------------------------------- steps

  lemma AdmitKeeps(w: Window, a: Arrival)
    requires Covers(w) && Admit(w, a).Some?
    ensures Covers(Push(Admit(w, a).value, a.seqNum))
    ensures Admit(w, a).value.minSeq == w.minSeq
  {
    var v := Admit(w, a).value;
    var p := Push(v, a.seqNum);
    CountBound(w);
    WithGapContents(w.gaps, w.maxSeq + 1, a.seqNum, a.t1);
    assert a.seqNum as int !in w.accepted;
    assert a.seqNum as int in p.accepted;
    forall x | p.minSeq <= x <= p.maxSeq ensures x in p.accepted || x in p.gaps {
      if x <= w.maxSeq {
        assert x in w.accepted ==> x in p.accepted;
      }
    }
  }

  lemma CountBound(w: Window)
    requires Covers(w)
    ensures |w.accepted| <= 0x1_0000
  {
    MissingCount(w);
  }

  // ---------------------------------------------------------------- windows opened by 0

  /** The window without the z zeros it took before its first other number. */
  function Strip(w: Window, z: nat): Window
    requires z <= |w.accepted|
  {
    w.(accepted := w.accepted[z..], count := Wrap32(|w.accepted| - z))
  }

  /** The code takes 0 for "unset": every 0 that comes before another number is
      accepted again and counted. Apart from these z zeros the window is covered. */
  ghost predicate Holds(w: Window, z: nat) {
    && z <= |w.accepted|
    && (forall i :: 0 <= i < z ==> w.accepted[i] == 0)
    && w.count == Wrap32(|w.accepted|)
    && if w.minSeq == 0 then w.maxSeq == 0 && |w.accepted| == z && w.gaps == map[] else Covers(Strip(w, z))
  }

  /** The window as it is when the packet a closes it. */
  function Last(w: Window, a: Arrival): Window
    requires Admit(Open(w, a), a).Some?
  {
    Push(Admit(Open(w, a), a).value, a.seqNum)
  }

  lemma OpenHolds(w: Window, z: nat, a: Arrival)
    requires Holds(w, z)
    ensures Holds(Open(w, a), if w.minSeq == 0 && a.seqNum == 0 then z + 1 else z)
    ensures Open(w, a).minSeq == 0 ==> a.seqNum == 0
    ensures w.minSeq == 0 ==> Admit(Open(w, a), a).None?
    ensures w.minSeq != 0 ==> Open(w, a) == w.(lastUpdate := Open(w, a).lastUpdate)
  {
    WrapSum32(|w.accepted|, 1);
    var o := Open(w, a);
    if w.minSeq == 0 {
      assert a.seqNum as int == o.accepted[|o.accepted| - 1];
      assert a.seqNum as int in o.accepted;
      assert o.accepted[z..] == [a.seqNum];
    } else {
      assert o == w.(lastUpdate := o.lastUpdate);
      assert Strip(o, z) == Strip(w, z).(lastUpdate := o.lastUpdate);
    }
  }

  /** The zeros change neither which packets are admitted nor what they add. */
  lemma AdmitStripped(w: Window, z: nat, a: Arrival)
    requires Holds(w, z) && w.minSeq != 0
    ensures Admit(w, a).Some? <==> Admit(Strip(w, z), a).Some?
    ensures Admit(w, a).Some? ==>
      var p := Push(Admit(w, a).value, a.seqNum);
      && |p.accepted| >= z && p.count == Wrap32(|p.accepted|)
      && (forall i :: 0 <= i < z ==> p.accepted[i] == 0)
      && Strip(p, z) == Push(Admit(Strip(w, z), a).value, a.seqNum)
  {
    var zeros, rest := w.accepted[..z], w.accepted[z..];
    assert w.accepted == zeros + rest;
    assert forall x: int :: x in w.accepted <==> x in rest || (x == 0 && z > 0) by {
      forall x: int ensures x in w.accepted <==> x in rest || (x == 0 && z > 0) {
        assert x in w.accepted <==> x in zeros || x in rest;
        assert z > 0 ==> zeros[0] == 0;
      }
    }
    assert 0 !in rest && 0 !in w.gaps;
    WrapSum32(|w.accepted|, 1);
    WrapSum32(|w.accepted| - z, 1);
    if Admit(w, a).Some? {
      assert (w.accepted + [a.seqNum])[z..] == rest + [a.seqNum];
    }
  }

  lemma LastHolds(w: Window, z: nat, a: Arrival)
    requires Holds(w, z) && Admit(Open(w, a), a).Some?
    ensures w.minSeq != 0 && Last(w, a).minSeq == w.minSeq
    ensures Holds(Last(w, a), z) && Covers(Strip(Last(w, a), z))
  {
    OpenHolds(w, z, a);
    var o := Open(w, a);
    AdmitStripped(o, z, a);
    AdmitKeeps(Strip(o, z), a);
  }

  lemma CloseEmpties(w: Window, now: int)
    ensures Holds(Close(w, now), 0)
  {}

  /** The zeros of the open window, from the packets alone. */
  function ZerosAfter(w: Window, z: nat, a: Arrival): nat {
    if Step(w, a).1.Some? then 0 else if w.minSeq == 0 && a.seqNum == 0 then z + 1 else z
  }

  /** Every packet keeps the count of zeros and the cover of the rest. */
  lemma StepKeeps(w: Window, z: nat, a: Arrival)
    requires Holds(w, z)
    ensures Holds(Step(w, a).0, ZerosAfter(w, z, a))
  {
    hide Holds, Close;
    OpenHolds(w, z, a);
    if Admit(Open(w, a), a).Some? {
      LastHolds(w, z, a);
      CloseEmpties(Last(w, a), a.t2);
    }
  }

  lemma MissingStripped(w: Window, z: nat)
    requires Holds(w, z) && w.minSeq != 0
    ensures Missing(w) == Missing(Strip(w, z))
    ensures |Missing(w)| == w.maxSeq - w.minSeq + 1 - (|w.accepted| - z)
    ensures 1 <= w.maxSeq - w.minSeq + 1 <= 0x1_0000
  {
    var rest := w.accepted[z..];
    assert w.accepted == w.accepted[..z] + rest;
    assert forall x: int :: x != 0 ==> (x in w.accepted <==> x in rest);
    MissingCount(Strip(w, z));
    assert |rest| == Strip(w, z).count;
  }

  lemma WrapDifference(expected: int, received: int)
    ensures Wrap32(expected - Wrap32(received)) == Wrap32(expected - received)
  {
    var k := Turns32(received);
    SameWrap32(expected - Wrap32(received), expected - received, k);
  }

  lemma Closing(last: Window, z: nat, now: int)
    requires Holds(last, z) && last.minSeq != 0
    ensures
      var c := Close(last, now);
      && c.lost == Wrap32(|Missing(last)| - z)
      && c.expected == last.maxSeq - last.minSeq + 1
      && 1 <= c.expected <= 0x1_0000 && |Missing(last)| < c.expected
      && last.count == Wrap32(c.expected - |Missing(last)| + z)
      && c.cumulativeLost == Wrap32(last.cumulativeLost + c.lost)
      && c.fraction == Percent(c.lost, c.expected)
  {
    hide Wrap32, Percent, Missing, Covers;
    MissingStripped(last, z);
    NoWrap32(last.maxSeq - last.minSeq + 1);
    WrapDifference(last.maxSeq - last.minSeq + 1, |last.accepted|);
    SomeAccepted(last, z);
  }

  /** A window that closes reports the numbers of its range that it never accepted, less
      the zeros it took before its first other number, in 32 bits. */
  lemma CloseReports(w: Window, z: nat, a: Arrival)
    requires Holds(w, z) && Step(w, a).1.Some?
    ensures Admit(Open(w, a), a).Some?
    ensures
      var last := Last(w, a);
      var c := Step(w, a).1.value;
      && c.lost == Wrap32(|Missing(last)| - z)
      && c.expected == last.maxSeq - last.minSeq + 1
      && 1 <= c.expected <= 0x1_0000 && |Missing(last)| < c.expected
      && c.received == Wrap32(c.expected - |Missing(last)| + z)
      && Step(w, a).0.cumulativeLost == Wrap32(w.cumulativeLost + c.lost)
      && Step(w, a).0.lost == c.lost && Step(w, a).0.expected == c.expected
      && Step(w, a).0.fraction == Percent(c.lost, c.expected)
  {
    hide Wrap32, Percent, Missing, Holds, Close;
    LastHolds(w, z, a);
    Closing(Last(w, a), z, a.t2);
    CloseShows(Last(w, a), a.t2);
  }

  lemma CloseShows(w: Window, now: int)
    ensures Close(w, now).lost == Wrap32(Close(w, now).expected - w.count)
  {}

  lemma SomeAccepted(w: Window, z: nat)
    requires Holds(w, z) && w.minSeq != 0
    ensures |w.accepted| > z
  {
    var s := Strip(w, z);
    assert s.minSeq !in s.gaps;
    assert s.minSeq as int in s.accepted;
  }

  /** A window opened by 0 can report some four thousand million losses ... */
  lemma ZeroOpensUnderflow()
    ensures
      var w1 := Step(FRESH, Arrival(0, 1, 1, 1)).0;
      var w2 := Step(w1, Arrival(1, 1, 1, 1)).0;
      var c := Step(w2, Arrival(2, 5000, 5000, 5000)).1;
      c == Some(Closed(2, 3, 0xFFFF_FFFF))
  {
    var w1 := Step(FRESH, Arrival(0, 1, 1, 1)).0;
    assert w1.accepted == [0] && w1.maxSeq == 0 && w1.minSeq == 0 && w1.count == 1;
    var w2 := Step(w1, Arrival(1, 1, 1, 1)).0;
    assert w2.accepted == [0, 1] && w2.maxSeq == 1 && w2.minSeq == 1 && w2.count == 2;
  }

  /** ... or none where there was one. */
  lemma ZeroHidesLoss()
    ensures
      var w1 := Step(FRESH, Arrival(0, 1, 1, 1)).0;
      var w2 := Step(w1, Arrival(1, 1, 1, 1)).0;
      var c := Step(w2, Arrival(3, 5000, 5000, 5000)).1;
      c == Some(Closed(3, 3, 0))
  {
    var w1 := Step(FRESH, Arrival(0, 1, 1, 1)).0;
    assert w1.accepted == [0] && w1.maxSeq == 0 && w1.minSeq == 0 && w1.count == 1;
    var w2 := Step(w1, Arrival(1, 1, 1, 1)).0;
    assert w2.accepted == [0, 1] && w2.maxSeq == 1 && w2.minSeq == 1 && w2.count == 2;
  }

  // ---------------------------------------------------------------- numbers that fall back

  /** A number not above the largest so far changes an open window if and only if it
      fills a gap in time. */
  lemma OldChangesIff(w: Window, z: nat, a: Arrival)
    requires Holds(w, z) && w.minSeq != 0 && w.lastUpdate != 0 && a.seqNum <= w.maxSeq
    ensures Step(w, a) != (w, None)
      <==> a.seqNum as int in w.gaps && a.seqNum as int !in w.accepted
           && a.t1 <= w.gaps[a.seqNum as int] + SEQ_MISSING_WAIT / 1000
  {
    if Admit(w, a).Some? && Step(w, a).1.None? {
      assert |Step(w, a).0.accepted| == |w.accepted| + 1;
    }
  }

  function StepAll(w: Window, arrivals: seq<Arrival>): Window {
    if arrivals == [] then w else Step(StepAll(w, arrivals[..|arrivals| - 1]), arrivals[|arrivals| - 1]).0
  }

  /** Once the largest 16-bit number is in and the deadlines of the open gaps have passed,
      nothing changes the window any more, so that it never closes: the stream has wrapped
      around for good. */
  lemma {:induction false} WrapAroundFreezes(w: Window, z: nat, arrivals: seq<Arrival>)
    requires Holds(w, z) && w.maxSeq == MAX_UINT16 && w.lastUpdate != 0
    requires forall x, k :: x in w.gaps && x !in w.accepted && 0 <= k < |arrivals| ==>
      arrivals[k].t1 > w.gaps[x] + SEQ_MISSING_WAIT / 1000
    ensures StepAll(w, arrivals) == w
    decreases |arrivals|
  {
    if arrivals != [] {
      WrapAroundFreezes(w, z, arrivals[..|arrivals| - 1]);
      OldChangesIff(w, z, arrivals[|arrivals| - 1]);
    }
  }

  // ---------------------------------------------------------------- runs

  /** Sums over the closed windows: what they reported, the numbers they really missed,
      and the zeros that opened them. */
  datatype Tally = Tally(expected: int, received: int, lost: int, missing: nat, zeros: nat)

  /** A window after a run, the zeros that opened it, the sums over the windows closed
      before it, and the missing numbers and zeros of the last of those. */
  datatype Trace = Trace(window: Window, zeros: nat, tally: Tally, lastMissing: nat, lastZeros: nat)

  const START := Trace(FRESH, 0, Tally(0, 0, 0, 0, 0), 0, 0)

  ghost function Add(t: Tally, c: Closed, missing: nat, zeros: nat): Tally {
    Tally(t.expected + c.expected, t.received + c.received, t.lost + c.lost, t.missing + missing, t.zeros + zeros)
  }

  ghost function Advance(t: Trace, a: Arrival): Trace {
    var (next, c) := Step(t.window, a);
    var zeros := ZerosAfter(t.window, t.zeros, a);
    if c.None? then Trace(next, zeros, t.tally, t.lastMissing, t.lastZeros) else
      var missing := |Missing(Last(t.window, a))|;
      Trace(next, zeros, Add(t.tally, c.value, missing, t.zeros), missing, t.zeros)
  }

  ghost function Run(arrivals: seq<Arrival>): Trace {
    if arrivals == [] then START else Advance(Run(arrivals[..|arrivals| - 1]), arrivals[|arrivals| - 1])
  }

  /** What holds of every run, whatever its numbers. */
  ghost predicate Accounts(t: Trace) {
    var w := t.window;
    && Holds(w, t.zeros)
    && Wrap32(t.tally.lost + t.tally.received) == Wrap32(t.tally.expected)
    && w.cumulativeLost == Wrap32(t.tally.missing - t.tally.zeros) == Wrap32(t.tally.lost)
    && w.lost == Wrap32(t.lastMissing - t.lastZeros)
    && (if w.expected == 0 then t.lastMissing == 0 && t.lastZeros == 0 else t.lastMissing < w.expected <= 0x1_0000)
    && (t.tally.zeros == 0 ==> t.lastZeros == 0 && t.tally.lost + t.tally.received == t.tally.expected
                               && t.tally.lost == t.tally.missing)
  }

  lemma WrapAdd(a: int, b: int)
    ensures Wrap32(Wrap32(a) + Wrap32(b)) == Wrap32(a + b)
  {
    WrapSum32(a, Wrap32(b));
    WrapSum32(b, a);
  }

  lemma AdvanceKeeps(t: Trace, a: Arrival)
    requires Accounts(t)
    ensures Accounts(Advance(t, a))
  {
    hide Holds, Step, Wrap32, Last, Missing;
    StepKeeps(t.window, t.zeros, a);
    if Step(t.window, a).1.Some? {
      CloseReports(t.window, t.zeros, a);
      var c := Step(t.window, a).1.value;
      var missing := |Missing(Last(t.window, a))|;
      AddsUp(c.expected, missing, t.zeros);
      WrapSum32(t.tally.lost, c.lost);
      WrapAdd(t.tally.missing - t.tally.zeros, missing - t.zeros);
      WrapAdd(t.tally.lost + t.tally.received, c.lost + c.received);
      WrapAdd(t.tally.expected, c.expected);
      assert t.tally.lost + c.lost + (t.tally.received + c.received) == t.tally.lost + t.tally.received + (c.lost + c.received);
      assert t.tally.missing + missing - (t.tally.zeros + t.zeros) == t.tally.missing - t.tally.zeros + (missing - t.zeros);
    } else {
      QuietKeeps(t.window, a);
    }
  }

  lemma QuietKeeps(w: Window, a: Arrival)
    requires Step(w, a).1.None?
    ensures
      var v := Step(w, a).0;
      v.cumulativeLost == w.cumulativeLost && v.lost == w.lost && v.expected == w.expected
  {}

  lemma AddsUp(expected: int, missing: nat, zeros: nat)
    requires 0 <= missing < expected <= 0x1_0000
    ensures Wrap32(Wrap32(missing - zeros) + Wrap32(expected - missing + zeros)) == Wrap32(expected)
    ensures zeros == 0 ==> Wrap32(missing - zeros) == missing && Wrap32(expected - missing + zeros) == expected - missing
  {
    WrapAdd(missing - zeros, expected - missing + zeros);
    if zeros == 0 {
      NoWrap32(missing);
      NoWrap32(expected - missing);
    }
  }

  /** Over every run the cumulative counter is the total of numbers never accepted less
      the total of opening zeros, in 32 bits; lost plus accepted is the total expected in
      32 bits, and exactly so when no closed window was opened by 0. */
  lemma {:induction false} LossesBalance(arrivals: seq<Arrival>)
    ensures Accounts(Run(arrivals))
  {
    hide Accounts, Advance;
    if arrivals == [] {
      StartAccounts();
    } else {
      var n := |arrivals| - 1;
      LossesBalance(arrivals[..n]);
      AdvanceKeeps(Run(arrivals[..n]), arrivals[n]);
    }
  }

  lemma StartAccounts()
    ensures Accounts(START)
  {
    hide Accounts;
    FreshAccounts(START);
  }

  lemma FreshAccounts(t: Trace)
    requires t == Trace(FRESH, 0, Tally(0, 0, 0, 0, 0), 0, 0)
    ensures Accounts(t)
  {
    hide Holds, Wrap32;
    FreshHolds();
    NoWrap32(0);
    assert t.tally.missing - t.tally.zeros == 0 && t.lastMissing - t.lastZeros == 0;
  }

  lemma FreshHolds()
    ensures Holds(FRESH, 0)
  {}

  /** The packets since the last window closed. */
  function Since(arrivals: seq<Arrival>): seq<Arrival> {
    if arrivals == [] then [] else
      var before, last := arrivals[..|arrivals| - 1], arrivals[|arrivals| - 1];
      if Step(StepAll(FRESH, before), last).1.Some? then [] else Since(before) + [last]
  }

  /** How many packets with number 0 a list starts with. */
  function LeadingZeros(arrivals: seq<Arrival>): nat {
    if arrivals == [] || arrivals[0].seqNum != 0 then 0 else 1 + LeadingZeros(arrivals[1..])
  }

  lemma {:induction false} LeadingSnoc(arrivals: seq<Arrival>, a: Arrival)
    ensures LeadingZeros(arrivals) <= |arrivals|
    ensures
      LeadingZeros(arrivals + [a])
      == if LeadingZeros(arrivals) == |arrivals| && a.seqNum == 0 then |arrivals| + 1 else LeadingZeros(arrivals)
  {
    if arrivals == [] {
      assert LeadingZeros([a][1..]) == 0;
    } else {
      assert (arrivals + [a])[1..] == arrivals[1..] + [a];
      LeadingSnoc(arrivals[1..], a);
    }
  }

  lemma MinSeqAfter(w: Window, z: nat, a: Arrival)
    requires Holds(w, z)
    ensures Step(w, a).0.minSeq == 0 <==> Step(w, a).1.Some? || (w.minSeq == 0 && a.seqNum == 0)
  {
    OpenHolds(w, z, a);
    if Admit(Open(w, a), a).Some? {
      LastHolds(w, z, a);
    }
  }

  /** The zeros of an open window are the packets with number 0 that came before any
      other since the last one closed. */
  lemma {:induction false} ZerosLead(arrivals: seq<Arrival>)
    ensures Run(arrivals).window == StepAll(FRESH, arrivals)
    ensures Run(arrivals).zeros == LeadingZeros(Since(arrivals))
    ensures Run(arrivals).window.minSeq == 0 <==> LeadingZeros(Since(arrivals)) == |Since(arrivals)|
    decreases |arrivals|
  {
    hide Holds, Step, Missing, Last;
    if arrivals != [] {
      var before, last := arrivals[..|arrivals| - 1], arrivals[|arrivals| - 1];
      ZerosLead(before);
      LossesBalance(before);
      LeadingSnoc(Since(before), last);
      MinSeqAfter(Run(before).window, Run(before).zeros, last);
    }
  }

  /** In every run the report of a closing window is right if and only if no packet with
      number 0 (or a multiple of 2^32 of them) opened it; and below 2^32 received numbers,
      "expected minus received" underflows if and only if more zeros opened it than it
      missed numbers. */
  lemma ReportRightIff(arrivals: seq<Arrival>, a: Arrival)
    requires Step(StepAll(FRESH, arrivals), a).1.Some?
    ensures Admit(Open(StepAll(FRESH, arrivals), a), a).Some?
    ensures
      var zeros := LeadingZeros(Since(arrivals));
      var missing := |Missing(Last(StepAll(FRESH, arrivals), a))|;
      var c := Step(StepAll(FRESH, arrivals), a).1.value;
      && (c.lost == missing <==> zeros % 0x1_0000_0000 == 0)
      && (c.expected + zeros < 0x1_0000_0000 ==>
            && (c.received > c.expected <==> missing < zeros)
            && c.lost == if missing < zeros then missing - zeros + 0x1_0000_0000 else missing - zeros)
  {
    hide Run, Step, Missing, Holds, Last, StepAll, Since;
    ZerosLead(arrivals);
    LossesBalance(arrivals);
    var t := Run(arrivals);
    assert Holds(t.window, t.zeros);
    CloseReports(t.window, t.zeros, a);
    var missing := |Missing(Last(t.window, a))|;
    var c := Step(t.window, a).1.value;
    SameOnlyIf(missing, t.zeros);
    if c.expected + t.zeros < 0x1_0000_0000 {
      NoWrap32(c.expected - missing + t.zeros);
      if missing < t.zeros {
        SameWrap32(missing - t.zeros + 0x1_0000_0000, missing - t.zeros, 1);
        NoWrap32(missing - t.zeros + 0x1_0000_0000);
      } else {
        NoWrap32(missing - t.zeros);
      }
    }
  }

  lemma SameOnlyIf(m: nat, z: nat)
    requires m < 0x1_0000
    ensures Wrap32(m - z) == m <==> z % 0x1_0000_0000 == 0
  {
    var k := Turns32(m - z);
    if Wrap32(m - z) == m {
      assert z == 0x1_0000_0000 * (-k);
    }
    if z % 0x1_0000_0000 == 0 {
      SameWrap32(m, m - z, z / 0x1_0000_0000);
      NoWrap32(m);
    }
  }

  // ---------------------------------------------------------------- aggregate

  /** recv_fraction_lost_ over both media (lines 697-702). */
  function CombinedFraction(video: Window, audio: Window, previous: uint32): uint32 {
    var lost := Wrap32(video.lost + audio.lost);
    var count := Wrap32(video.expected + audio.expected);
    if count > 0 then Percent(lost, count) else previous
  }

  /** A run of both media and the combined percentage it leaves. */
  datatype Both = Both(video: Trace, audio: Trace, fraction: uint32)

  /** StatisticRecvFractionLost, with the history of each medium beside it. */
  ghost function StatisticBoth(b: Both, isVideo: bool, a: Arrival): Both {
    var video := if isVideo then Advance(b.video, a) else b.video;
    var audio := if isVideo then b.audio else Advance(b.audio, a);
    Both(video, audio, CombinedFraction(video.window, audio.window, b.fraction))
  }

  ghost function RunBoth(packets: seq<(bool, Arrival)>): Both {
    if packets == [] then Both(START, START, 0) else
      var last := packets[|packets| - 1];
      StatisticBoth(RunBoth(packets[..|packets| - 1]), last.0, last.1)
  }

  /** The combined percentage a run leaves depends only on the last closed window of each
      medium: its missing numbers less its zeros, and its range. */
  ghost predicate Combined(b: Both) {
    var missing := b.video.lastMissing + b.audio.lastMissing;
    var zeros := b.video.lastZeros + b.audio.lastZeros;
    var count := b.video.window.expected + b.audio.window.expected;
    && Accounts(b.video) && Accounts(b.audio)
    && b.fraction == if count > 0 then Wrap32((missing - zeros) * 100) / count else 0
  }

  lemma WrapTimes(a: int)
    ensures Wrap32(Wrap32(a) * 100) == Wrap32(a * 100)
  {
    var k := Turns32(a);
    SameWrap32(a * 100, Wrap32(a) * 100, k * 100);
  }

  lemma CombinedIs(video: Trace, audio: Trace, previous: uint32)
    requires Accounts(video) && Accounts(audio)
    ensures
      var missing := video.lastMissing + audio.lastMissing;
      var zeros := video.lastZeros + audio.lastZeros;
      var count := video.window.expected + audio.window.expected;
      CombinedFraction(video.window, audio.window, previous)
      == if count > 0 then Wrap32((missing - zeros) * 100) / count else previous
  {
    hide Wrap32, Holds;
    var v, a := video.lastMissing - video.lastZeros, audio.lastMissing - audio.lastZeros;
    WrapAdd(v, a);
    WrapTimes(v + a);
    NoWrap32(video.window.expected + audio.window.expected);
  }

  lemma {:induction false} RunCombines(packets: seq<(bool, Arrival)>)
    ensures Combined(RunBoth(packets))
  {
    hide Accounts, Advance, CombinedFraction;
    if packets == [] {
      StartAccounts();
    } else {
      var before, last := RunBoth(packets[..|packets| - 1]), packets[|packets| - 1];
      RunCombines(packets[..|packets| - 1]);
      if last.0 {
        AdvanceKeeps(before.video, last.1);
        ExpectedStays(before.video, last.1);
      } else {
        AdvanceKeeps(before.audio, last.1);
        ExpectedStays(before.audio, last.1);
      }
      var after := RunBoth(packets);
      CombinedIs(after.video, after.audio, before.fraction);
    }
  }

  /** The range of the last closed window never becomes unknown again. */
  lemma ExpectedStays(t: Trace, a: Arrival)
    requires Accounts(t)
    ensures t.window.expected > 0 ==> Advance(t, a).window.expected > 0
  {
    hide Step, Holds, Missing;
    if Step(t.window, a).1.Some? {
      CloseReports(t.window, t.zeros, a);
    } else {
      QuietKeeps(t.window, a);
    }
  }

  lemma PercentWithinIff(missing: nat, zeros: nat, count: nat)
    requires missing <= count <= 0x2_0000 && zeros < 0x200_0000 && count > 0
    ensures Wrap32((missing - zeros) * 100) / count <= 100 <==> zeros <= missing
  {
    hide Wrap32;
    var d := (missing - zeros) * 100;
    if zeros <= missing {
      NoWrap32(d);
      QuotientBetween(d, count, 0, 100);
    } else {
      SameWrap32(d + 0x1_0000_0000, d, 1);
      NoWrap32(d + 0x1_0000_0000);
      QuotientBetween(d + 0x1_0000_0000, count, 0, 100);
      QuotientSmaller(d + 0x1_0000_0000, count);
    }
  }

  /** Over every run of both media in which the last closed windows took fewer than 2^25
      opening zeros, the combined percentage is at most 100 if and only if those windows
      together missed at least as many numbers as they took zeros. */
  lemma CombinedWithinHundredIff(packets: seq<(bool, Arrival)>)
    requires RunBoth(packets).video.lastZeros + RunBoth(packets).audio.lastZeros < 0x200_0000
    ensures
      var b := RunBoth(packets);
      b.fraction <= 100 <==> b.video.lastZeros + b.audio.lastZeros <= b.video.lastMissing + b.audio.lastMissing
  {
    hide RunBoth, Holds, Wrap32;
    RunCombines(packets);
    var b := RunBoth(packets);
    var count := b.video.window.expected + b.audio.window.expected;
    if count > 0 {
      PercentWithinIff(b.video.lastMissing + b.audio.lastMissing, b.video.lastZeros + b.audio.lastZeros, count);
    }
  }

  /** Over every run of both media in which no closed window was opened by 0, the combined
      percentage never exceeds 100. */
  lemma CombinedFractionBound(packets: seq<(bool, Arrival)>)
    requires RunBoth(packets).video.tally.zeros == 0 && RunBoth(packets).audio.tally.zeros == 0
    ensures RunBoth(packets).fraction <= 100
  {
    hide RunBoth, Holds, Wrap32;
    RunCombines(packets);
    CombinedWithinHundredIff(packets);
  }

  ghost predicate Between(x: int, a: int, b: int) {
    (if a < b then a else b) <= x <= (if a < b then b else a)
  }

  /** It then lies between the two media's own percentages. */
  lemma CombinedFractionBetween(packets: seq<(bool, Arrival)>)
    requires RunBoth(packets).video.tally.zeros == 0 && RunBoth(packets).audio.tally.zeros == 0
    ensures
      var b := RunBoth(packets);
      var video, audio := b.video.window, b.audio.window;
      video.expected > 0 && audio.expected > 0 ==>
        Between(b.fraction, video.lost * 100 / video.expected, audio.lost * 100 / audio.expected)
  {
    hide RunBoth, Holds, Wrap32, Between;
    RunCombines(packets);
    var v, a := RunBoth(packets).video, RunBoth(packets).audio;
    if v.window.expected > 0 && a.window.expected > 0 {
      NoWrap32(v.lastMissing);
      NoWrap32(a.lastMissing);
      NoWrap32((v.lastMissing + a.lastMissing) * 100);
      PercentMediant(v.lastMissing, v.window.expected, a.lastMissing, a.window.expected);
    }
  }

  lemma PercentMediant(x: int, d: int, y: int, e: int)
    requires d > 0 && e > 0
    ensures Between((x + y) * 100 / (d + e), x * 100 / d, y * 100 / e)
  {
    Mediant(x * 100, d, y * 100, e);
    assert (x + y) * 100 == x * 100 + y * 100;
  }

  /** The quotient of sums lies between the quotients. */
  lemma Mediant(x: int, d: int, y: int, e: int)
    requires d > 0 && e > 0
    ensures Between((x + y) / (d + e), x / d, y / e)
  {
    var a, b := x / d, y / e;
    var lo, hi := if a < b then a else b, if a < b then b else a;
    QuotientBetween(x, d, lo, hi);
    QuotientBetween(y, e, lo, hi);
    Distribute(lo, d, e);
    Distribute(hi + 1, d, e);
    QuotientBetween(x + y, d + e, lo, hi);
  }

  lemma Distribute(k: int, d: int, e: int)
    ensures k * (d + e) == k * d + k * e
  {}

  // ---------------------------------------------------------------- the code

  /** StatisticRecvFractionOfVideo and StatisticRecvFractionOfAudio. */
  class Medium {
    var lastUpdate: int
    var maxSeq: uint32
    var minSeq: uint32
    var count: uint32
    var accepted: seq<int>
    var gaps: map<int, int>
    var fraction: uint32
    var cumulativeLost: uint32
    var expected: uint32
    var lost: uint32

    function View(): Window
      reads this
    {
      Window(lastUpdate, maxSeq, minSeq, count, accepted, gaps, fraction, cumulativeLost, expected, lost)
    }

    constructor ()
      ensures View() == FRESH
    {
      lastUpdate, maxSeq, minSeq, count, accepted, gaps := 0, 0, 0, 0, [], map[];
      fraction, cumulativeLost, expected, lost := 0, 0, 0, 0;
    }

    /** The duplicate search over the vector. */
    method Contains(s: uint16) returns (found: bool)
      ensures found <==> s as int in accepted
    {
      var i := 0;
      while i < |accepted|
        invariant 0 <= i <= |accepted|
        invariant s as int !in accepted[..i]
      {
        if accepted[i] == s {
          return true;
        }
        i := i + 1;
      }
      found := false;
    }

    method RecordGap(s: uint16, newLost: int, time: int)
      requires newLost == s - maxSeq && newLost > 0
      modifies this`gaps
      ensures gaps == WithGap(old(gaps), maxSeq + 1, s, time)
    {
      var counter := newLost - 1;
      while counter > 0
        invariant 0 <= counter <= newLost - 1
        invariant gaps == WithGap(old(gaps), maxSeq + 1, s - counter, time)
      {
        gaps := gaps[s - counter := time];
        counter := counter - 1;
      }
    }

    method OpenWindow(a: Arrival)
      modifies this
      ensures View() == Open(old(View()), a)
    {
      if lastUpdate == 0 {
        lastUpdate := a.t0;
      }
      if maxSeq == 0 {
        maxSeq := a.seqNum;
      }
      if minSeq == 0 {
        minSeq := a.seqNum;
        accepted := accepted + [a.seqNum];
        count := Wrap32(count + 1);
      }
    }

    method CloseWindow(now: int) returns (ghost closed: Closed)
      modifies this
      ensures View() == Close(old(View()), now)
      ensures closed == Closed(expected, old(count), lost)
    {
      hide Wrap32, Percent;
      var exp := Wrap32(maxSeq - minSeq + 1);
      var seqLost := Wrap32(exp - count);
      closed := Closed(exp, count, seqLost);
      if exp > 0 {
        fraction := Percent(seqLost, exp);
      }
      maxSeq, minSeq, count := 0, 0, 0;
      lastUpdate := now;
      accepted := [];
      gaps := map[];
      cumulativeLost := Wrap32(cumulativeLost + seqLost);
      expected := exp;
      lost := seqLost;
    }

    method Statistic(a: Arrival) returns (ghost closed: Option<Closed>)
      modifies this
      ensures (View(), closed) == Step(old(View()), a)
    {
      closed := None;
      var s := a.seqNum;
      OpenWindow(a);
      var newLost := s - maxSeq;
      if newLost > 0 {
        RecordGap(s, newLost, a.t1);
        maxSeq := s;
      } else {
        var duplicate := Contains(s);
        if duplicate || s as int !in gaps {
          return;
        }
        if a.t1 > gaps[s as int] + SEQ_MISSING_WAIT / 1000 {
          return;
        }
      }
      assert Some(View()) == Admit(Open(old(View()), a), a);
      accepted := accepted + [s];
      count := Wrap32(count + 1);
      if a.t2 - lastUpdate > UPDATE_INTERVAL {
        ghost var c := CloseWindow(a.t2);
        closed := Some(c);
      }
    }
  }

  class NetworkStatus {
    const video: Medium
    const audio: Medium
    var recvFractionLost: uint32
    var cumulateRecvLost: uint32

    constructor ()
      ensures fresh(video) && fresh(audio) && video != audio
      ensures video.View() == FRESH && audio.View() == FRESH && recvFractionLost == 0 && cumulateRecvLost == 0
    {
      video := new Medium();
      audio := new Medium();
      recvFractionLost, cumulateRecvLost := 0, 0;
    }

    method StatisticRecvFractionLost(isVideo: bool, a: Arrival)
      requires video != audio
      modifies this, video, audio
      ensures video.View() == if isVideo then Step(old(video.View()), a).0 else old(video.View())
      ensures audio.View() == if isVideo then old(audio.View()) else Step(old(audio.View()), a).0
      ensures recvFractionLost == CombinedFraction(video.View(), audio.View(), old(recvFractionLost))
      ensures cumulateRecvLost == Wrap32(video.cumulativeLost + audio.cumulativeLost)
    {
      if isVideo {
        ghost var c := video.Statistic(a);
      } else {
        ghost var c := audio.Statistic(a);
      }
      var lost := Wrap32(video.lost + audio.lost);
      var recvCount := Wrap32(video.expected + audio.expected);
      if recvCount > 0 {
        recvFractionLost := Percent(lost, recvCount);
      }
      cumulateRecvLost := Wrap32(video.cumulativeLost + audio.cumulativeLost);
    }
  }
}
