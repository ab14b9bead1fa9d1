/** Send-side loss statistics from receiver reports
    (orbit/network_status.cc:59-80, 452-472; orbit/network_status.h:104-142). */
module SendLoss {
  import opened Common
  import opened Widths

  const UPDATE_INTERVAL := 3000

  /** The fields of SendPacketsStatus that reports change. */
  datatype Status = Status(
    lastUpdate: int,
    highest: uint32,
    cumulativeLost: uint32,
    fraction: uint32,
    expected: uint32,
    lost: uint32)

  const FRESH := Status(0, 0, 0, 0, 0, 0)

  /** A receiver report and the time it is handled at. */
  datatype Report = Report(highest: uint32, cumulativeLost: uint32, time: int)

  const INT_LIMIT := 0x8000_0000

  /** A 32-bit unsigned difference stored into an int. */
  function Signed(x: uint32): int {
    if x < INT_LIMIT then x else x - 0x1_0000_0000
  }

  predicate Due(st: Status, r: Report) {
    r.time - (if st.lastUpdate == 0 then r.time else st.lastUpdate) >= UPDATE_INTERVAL
  }

  function SeqStep(st: Status, r: Report): uint32 {
    Wrap32(r.highest - st.highest)
  }

  function LossStep(st: Status, r: Report): uint32 {
    Wrap32(r.cumulativeLost - st.cumulativeLost)
  }

  function Percent(lost: nat, steps: nat): uint32
    requires steps > 0
  {
    Wrap32(lost * 100 / steps)
  }

  /** CalculateSendFractionLost */
  function Handle(st: Status, r: Report): Status {
    var started := if st.lastUpdate == 0 then st.(lastUpdate := r.time) else st;
    if !Due(st, r) then started else
      var steps, lost := Signed(SeqStep(st, r)), Signed(LossStep(st, r));
      Status(r.time, r.highest, r.cumulativeLost,
             if steps > 0 && lost >= 0 then Percent(lost, steps) else st.fraction,
             Wrap32(steps), Wrap32(lost))
  }

  function Run(reports: seq<Report>): Status {
    if reports == [] then FRESH else Handle(Run(reports[..|reports| - 1]), reports[|reports| - 1])
  }

  // ---------------------------------------------------------------- telescoping

  /** The sequence increments that the run's applied reports leave in expect_send_packets_. */
  function SeqSum(reports: seq<Report>): nat {
    if reports == [] then 0 else
      var before := reports[..|reports| - 1];
      var last := reports[|reports| - 1];
      SeqSum(before) + (if Due(Run(before), last) then Handle(Run(before), last).expected else 0)
  }

  function LossSum(reports: seq<Report>): nat {
    if reports == [] then 0 else
      var before := reports[..|reports| - 1];
      var last := reports[|reports| - 1];
      LossSum(before) + (if Due(Run(before), last) then Handle(Run(before), last).lost else 0)
  }

  lemma SignedKeeps(x: uint32)
    ensures Wrap32(Signed(x)) == x && (0 <= Signed(x) <==> x < INT_LIMIT)
  {
    if x >= INT_LIMIT {
      SameWrap32(Signed(x), x, -1);
    }
  }

  lemma AddStep(sum: nat, from: uint32, now: uint32)
    requires Wrap32(sum) == from
    ensures Wrap32(sum + Wrap32(now - from)) == now
  {
    var i := Turns32(sum);
    var j := Turns32(now - from);
    SameWrap32(sum + Wrap32(now - from), now, i - j);
  }

  lemma HandleApplies(st: Status, r: Report)
    ensures Due(st, r) ==> Handle(st, r).expected == SeqStep(st, r) && Handle(st, r).lost == LossStep(st, r)
    ensures Handle(st, r).highest == if Due(st, r) then r.highest else st.highest
    ensures Handle(st, r).cumulativeLost == if Due(st, r) then r.cumulativeLost else st.cumulativeLost
  {
    SignedKeeps(SeqStep(st, r));
    SignedKeeps(LossStep(st, r));
  }

  /** The increments of any run sum up to what the last applied report said, in 32 bits. */
  lemma {:induction false} IncrementsTelescope(reports: seq<Report>)
    ensures Wrap32(SeqSum(reports)) == Run(reports).highest
    ensures Wrap32(LossSum(reports)) == Run(reports).cumulativeLost
    decreases |reports|
  {
    hide Handle, Due;
    if reports != [] {
      var before, last := reports[..|reports| - 1], reports[|reports| - 1];
      IncrementsTelescope(before);
      var st := Run(before);
      HandleApplies(st, last);
      AddStep(SeqSum(before), st.highest, last.highest);
      AddStep(LossSum(before), st.cumulativeLost, last.cumulativeLost);
    }
  }

  /** Reports that never fall behind the ones applied before them. */
  predicate Rising(reports: seq<Report>) {
    reports == [] ||
    (var before, last := reports[..|reports| - 1], reports[|reports| - 1];
     Rising(before) && Run(before).highest <= last.highest && Run(before).cumulativeLost <= last.cumulativeLost)
  }

  /** With numbers that do not fall, the increments are exact. */
  lemma {:induction false} IncrementsSumUp(reports: seq<Report>)
    requires Rising(reports)
    ensures SeqSum(reports) == Run(reports).highest && LossSum(reports) == Run(reports).cumulativeLost
    decreases |reports|
  {
    hide Handle, Due;
    if reports != [] {
      var before, last := reports[..|reports| - 1], reports[|reports| - 1];
      IncrementsSumUp(before);
      var st := Run(before);
      HandleApplies(st, last);
      NoWrap32(last.highest - st.highest);
      NoWrap32(last.cumulativeLost - st.cumulativeLost);
    }
  }

  /** The first report only starts the clock. */
  lemma FirstReportWaits(r: Report)
    ensures Run([r]) == FRESH.(lastUpdate := r.time)
  {
    assert [r][..0] == [];
    assert Run([]) == FRESH;
  }

  // ---------------------------------------------------------------- one source's percentage

  /** The percentage is that of the last step, where that one counts packets and no
      negative loss. */
  predicate Sane(st: Status) {
    0 < st.expected < INT_LIMIT && st.lost < INT_LIMIT ==> st.fraction == Percent(st.lost, st.expected)
  }

  lemma HandleKeepsSane(st: Status, r: Report)
    requires Sane(st)
    ensures Sane(Handle(st, r))
  {
    if Due(st, r) {
      SignedKeeps(SeqStep(st, r));
      SignedKeeps(LossStep(st, r));
    }
  }

  lemma {:induction false} RunIsSane(reports: seq<Report>)
    ensures Sane(Run(reports))
    decreases |reports|
  {
    if reports != [] {
      RunIsSane(reports[..|reports| - 1]);
      HandleKeepsSane(Run(reports[..|reports| - 1]), reports[|reports| - 1]);
    }
  }

  // ---------------------------------------------------------------- all sources

  function TotalExpected(all: seq<Status>): nat {
    if all == [] then 0 else TotalExpected(all[..|all| - 1]) + all[|all| - 1].expected
  }

  function TotalLost(all: seq<Status>): nat {
    if all == [] then 0 else TotalLost(all[..|all| - 1]) + all[|all| - 1].lost
  }

  function TotalCumulative(all: seq<Status>): nat {
    if all == [] then 0 else TotalCumulative(all[..|all| - 1]) + all[|all| - 1].cumulativeLost
  }

  /** UpdateTotalSendFractionLost, with the arithmetic in 32 bits. */
  function TotalFraction(all: seq<Status>, was: uint32): uint32 {
    var send, lost := Wrap32(TotalExpected(all)), Wrap32(TotalLost(all));
    if send > 0 then Wrap32(Wrap32(lost * 100) / send) else was
  }

  /** Sources whose last step lost no more than it sent. */
  predicate LossWithinSteps(all: seq<Status>) {
    forall k :: 0 <= k < |all| ==> all[k].lost <= all[k].expected < INT_LIMIT
  }

  predicate PercentsBetween(all: seq<Status>, low: nat, high: nat) {
    forall k :: 0 <= k < |all| && all[k].expected > 0 ==> low <= all[k].lost * 100 / all[k].expected <= high
  }

  lemma {:induction false} SumsBetween(all: seq<Status>, low: nat, high: nat)
    requires LossWithinSteps(all) && PercentsBetween(all, low, high)
    ensures low * TotalExpected(all) <= TotalLost(all) * 100
    ensures TotalExpected(all) > 0 ==> TotalLost(all) * 100 < (high + 1) * TotalExpected(all)
    ensures TotalLost(all) <= TotalExpected(all)
    decreases |all|
  {
    if all != [] {
      var before, last := all[..|all| - 1], all[|all| - 1];
      SumsBetween(before, low, high);
      AddBetween(TotalLost(before) * 100, TotalExpected(before), last.lost * 100, last.expected, low, high);
    }
  }

  lemma AddBetween(a: nat, b: nat, c: nat, d: nat, low: nat, high: nat)
    requires low * b <= a && (b > 0 ==> a < (high + 1) * b) && (b == 0 ==> a == 0)
    requires d > 0 ==> low <= c / d <= high
    requires d == 0 ==> c == 0
    ensures low * (b + d) <= a + c && (b + d > 0 ==> a + c < (high + 1) * (b + d))
  {
    if d > 0 {
      QuotientBetween(c, d, low, high);
    }
    assert low * (b + d) == low * b + low * d;
    assert (high + 1) * (b + d) == (high + 1) * b + (high + 1) * d;
  }

  /** The percentage over all sources lies between the smallest and the largest one of a
      source that sent anything in its last step, and within 100. */
  lemma TotalBetween(all: seq<Status>, was: uint32, low: nat, high: nat)
    requires LossWithinSteps(all) && PercentsBetween(all, low, high)
    requires 0 < TotalExpected(all) && TotalExpected(all) * 100 < 0x1_0000_0000
    ensures low <= TotalFraction(all, was) <= high
    ensures TotalFraction(all, was) <= 100
  {
    hide Wrap32, TotalExpected, TotalLost;
    SumsBetween(all, low, high);
    var send, lost := TotalExpected(all), TotalLost(all);
    NoWrap32(send);
    NoWrap32(lost);
    NoWrap32(lost * 100);
    QuotientBetween(lost * 100, send, low, high);
    QuotientBetween(lost * 100, send, 0, 100);
    NoWrap32(lost * 100 / send);
  }

  /** Those percentages are the ones the sources show. */
  lemma ShownPercent(reports: seq<Report>)
    requires Run(reports).lost <= Run(reports).expected < INT_LIMIT && Run(reports).expected > 0
    ensures Run(reports).fraction == Run(reports).lost * 100 / Run(reports).expected <= 100
  {
    hide Run, Wrap32;
    RunIsSane(reports);
    var st := Run(reports);
    QuotientBetween(st.lost * 100, st.expected, 0, 100);
    NoWrap32(st.lost * 100 / st.expected);
  }

  // ---------------------------------------------------------------- all sources over their runs

  /** From one report to another the loss grows by no more than the packets do. */
  predicate LossFits(highest: uint32, cumulativeLost: uint32, r: Report) {
    0 <= r.cumulativeLost - cumulativeLost <= r.highest - highest < INT_LIMIT
  }

  predicate Plausible(reports: seq<Report>) {
    && (forall j :: 0 <= j < |reports| ==> LossFits(0, 0, reports[j]))
    && (forall i, j :: 0 <= i < j < |reports| ==> LossFits(reports[i].highest, reports[i].cumulativeLost, reports[j]))
  }

  /** The numbers a source remembers are those of one of its reports. */
  predicate Remembers(st: Status, reports: seq<Report>) {
    || st.highest == st.cumulativeLost == 0
    || exists i :: 0 <= i < |reports| && reports[i].highest == st.highest && reports[i].cumulativeLost == st.cumulativeLost
  }

  lemma {:induction false} PlausibleRun(reports: seq<Report>)
    requires Plausible(reports)
    ensures Remembers(Run(reports), reports) && Run(reports).lost <= Run(reports).expected < INT_LIMIT
    decreases |reports|
  {
    hide Handle, Due;
    if reports != [] {
      var before, last := reports[..|reports| - 1], reports[|reports| - 1];
      PlausibleRun(before);
      var st := Run(before);
      assert LossFits(st.highest, st.cumulativeLost, last);
      HandleApplies(st, last);
      NoWrap32(last.highest - st.highest);
      NoWrap32(last.cumulativeLost - st.cumulativeLost);
      HandleWaits(st, last);
    }
  }

  lemma HandleWaits(st: Status, r: Report)
    ensures !Due(st, r) ==> Handle(st, r).lost == st.lost && Handle(st, r).expected == st.expected
  {}

  function States(runs: seq<seq<Report>>): seq<Status> {
    seq(|runs|, k requires 0 <= k < |runs| => Run(runs[k]))
  }

  /** Any number of sources, each with any run of plausible reports: the percentage over all
      of them lies between the percentages that the sources with a counted step show. */
  lemma TotalOfRunsBetween(runs: seq<seq<Report>>, was: uint32, low: nat, high: nat)
    requires forall k :: 0 <= k < |runs| ==> Plausible(runs[k])
    requires forall k :: 0 <= k < |runs| && Run(runs[k]).expected > 0 ==> low <= Run(runs[k]).fraction <= high
    requires 0 < TotalExpected(States(runs)) && TotalExpected(States(runs)) * 100 < 0x1_0000_0000
    ensures low <= TotalFraction(States(runs), was) <= high
    ensures TotalFraction(States(runs), was) <= 100
  {
    hide Run, Plausible, TotalExpected, TotalFraction;
    forall k | 0 <= k < |runs|
      ensures Run(runs[k]).lost <= Run(runs[k]).expected < INT_LIMIT
      ensures Run(runs[k]).expected > 0 ==> Run(runs[k]).fraction == Run(runs[k]).lost * 100 / Run(runs[k]).expected
    {
      PlausibleRun(runs[k]);
      if Run(runs[k]).expected > 0 {
        ShownPercent(runs[k]);
      }
    }
    TotalBetween(States(runs), was, low, high);
  }

  // ---------------------------------------------------------------- the classes

  class SendPacketsStatus {
    var lastUpdateTime: int
    var currentHighestSeqNumber: uint32
    var lastCumulativeLost: uint32
    var sendFractionLost: uint32
    var expectSendPackets: uint32
    var sendLost: uint32

    ghost function View(): Status
      reads this
    {
      Status(lastUpdateTime, currentHighestSeqNumber, lastCumulativeLost, sendFractionLost, expectSendPackets, sendLost)
    }

    constructor ()
      ensures View() == FRESH
    {
      lastUpdateTime, currentHighestSeqNumber, lastCumulativeLost := 0, 0, 0;
      sendFractionLost, expectSendPackets, sendLost := 0, 0, 0;
    }

    method CalculateSendFractionLost(highestSeqNumber: uint32, cumulativeLost: uint32, currentTime: int)
      modifies this
      ensures View() == Handle(old(View()), Report(highestSeqNumber, cumulativeLost, currentTime))
    {
      hide Percent, Wrap32, Signed;
      if lastUpdateTime == 0 {
        lastUpdateTime := currentTime;
      }
      if currentTime - lastUpdateTime < UPDATE_INTERVAL {
        return;
      }
      var seqDuration := Signed(Wrap32(highestSeqNumber - currentHighestSeqNumber));
      var lostCount := Signed(Wrap32(cumulativeLost - lastCumulativeLost));
      if seqDuration > 0 && lostCount >= 0 {
        sendFractionLost := Percent(lostCount, seqDuration);
      }
      lastUpdateTime := currentTime;
      currentHighestSeqNumber := highestSeqNumber;
      lastCumulativeLost := cumulativeLost;
      expectSendPackets := Wrap32(seqDuration);
      sendLost := Wrap32(lostCount);
    }
  }

  ghost function Views(all: seq<SendPacketsStatus>, n: nat): (views: seq<Status>)
    requires n <= |all|
    reads all
    ensures |views| == n
  {
    if n == 0 then [] else Views(all, n - 1) + [all[n - 1].View()]
  }

  lemma SumsOfView(before: seq<Status>, last: Status)
    ensures TotalExpected([]) == TotalLost([]) == TotalCumulative([]) == 0
    ensures TotalExpected(before + [last]) == TotalExpected(before) + last.expected
    ensures TotalLost(before + [last]) == TotalLost(before) + last.lost
    ensures TotalCumulative(before + [last]) == TotalCumulative(before) + last.cumulativeLost
  {
    assert (before + [last])[..|before|] == before;
  }

  /** The sources in the order of their SSRCs, and the totals over them. */
  class NetworkStatus {
    var sources: seq<SendPacketsStatus>
    var cumulateSendLost: uint32
    var sendFractionLost: uint32

    method UpdateTotalSendFractionLost()
      modifies this`cumulateSendLost, this`sendFractionLost
      ensures sendFractionLost == TotalFraction(Views(sources, |sources|), old(sendFractionLost))
      ensures cumulateSendLost == Wrap32(TotalCumulative(Views(sources, |sources|)))
    {
      hide TotalExpected, TotalLost, TotalCumulative;
      SumsOfView([], FRESH);
      var totalSend: uint32, totalSendLost: uint32 := 0, 0;
      cumulateSendLost := 0;
      for n := 0 to |sources|
        invariant totalSend == Wrap32(TotalExpected(Views(sources, n)))
        invariant totalSendLost == Wrap32(TotalLost(Views(sources, n)))
        invariant cumulateSendLost == Wrap32(TotalCumulative(Views(sources, n)))
        invariant sendFractionLost == old(sendFractionLost)
      {
        ghost var before := Views(sources, n);
        SumsOfView(before, sources[n].View());
        WrapSum32(TotalExpected(before), sources[n].expectSendPackets);
        WrapSum32(TotalLost(before), sources[n].sendLost);
        WrapSum32(TotalCumulative(before), sources[n].lastCumulativeLost);
        totalSend := Wrap32(totalSend + sources[n].expectSendPackets);
        totalSendLost := Wrap32(totalSendLost + sources[n].sendLost);
        cumulateSendLost := Wrap32(cumulateSendLost + sources[n].lastCumulativeLost);
      }
      if totalSend > 0 {
        sendFractionLost := Wrap32(Wrap32(totalSendLost * 100) / totalSend);
      }
    }
  }
}
