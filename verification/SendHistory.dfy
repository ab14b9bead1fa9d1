/** The send-side statistics told from the receiver reports alone: which reports are applied,
    and what the applied ones leave (orbit/network_status.cc:59-80, 452-472). */
module SendHistory {
  import opened Common
  import opened Widths
  import opened SendLoss

  // ---------------------------------------------------------------- told from the reports

  /** The first time that a clock showed and that is not 0. */
  function FirstTime(reports: seq<Report>): int {
    if reports == [] then 0 else
      var before := FirstTime(reports[..|reports| - 1]);
      if before != 0 then before else reports[|reports| - 1].time
  }

  /** The reports that have been applied, and those from the last applied one on. */
  datatype Story = Story(applied: seq<Report>, since: seq<Report>)

  /** A report is applied when it comes at least 3000 after the applied one before it, or
      after the first report of all. */
  function Continue(t: Story, r: Report): Story {
    if r.time - FirstTime(t.since + [r]) >= 3000 then Story(t.applied + [r], [r])
    else Story(t.applied, t.since + [r])
  }

  function Tell(reports: seq<Report>): Story {
    if reports == [] then Story([], []) else Continue(Tell(reports[..|reports| - 1]), reports[|reports| - 1])
  }

  /** The numbers of the last of the reports, 0 without any. */
  function HighestOf(applied: seq<Report>): uint32 {
    if applied == [] then 0 else applied[|applied| - 1].highest
  }

  function LostOf(applied: seq<Report>): uint32 {
    if applied == [] then 0 else applied[|applied| - 1].cumulativeLost
  }

  /** From one 32-bit number up to another, around the end if need be. */
  function Gap(before: uint32, now: uint32): uint32 {
    (now - before) % 0x1_0000_0000
  }

  /** Packets and losses from the report before the last to the last. */
  function PacketStep(applied: seq<Report>): uint32 {
    if applied == [] then 0 else Gap(HighestOf(applied[..|applied| - 1]), HighestOf(applied))
  }

  function LostStep(applied: seq<Report>): uint32 {
    if applied == [] then 0 else Gap(LostOf(applied[..|applied| - 1]), LostOf(applied))
  }

  /** The percentage of a step that counts packets and no negative loss. */
  function StepPercent(steps: uint32, lost: uint32, otherwise: int): int {
    if 0 < steps < 0x8000_0000 && lost < 0x8000_0000 then (lost * 100 / steps) % 0x1_0000_0000 else otherwise
  }

  /** The percentage of the last step that has one. */
  function Shown(applied: seq<Report>): int {
    if applied == [] then 0
    else StepPercent(PacketStep(applied), LostStep(applied), Shown(applied[..|applied| - 1]))
  }

  // ---------------------------------------------------------------- every run

  /** The fields after a run, from its applied reports. */
  ghost predicate AsTold(st: Status, t: Story) {
    && st.lastUpdate == FirstTime(t.since)
    && st.highest == HighestOf(t.applied) && st.cumulativeLost == LostOf(t.applied)
    && st.expected == PacketStep(t.applied) && st.lost == LostStep(t.applied)
    && st.fraction == Shown(t.applied)
  }

  lemma FirstTimeSnoc(reports: seq<Report>, r: Report)
    ensures FirstTime(reports + [r]) == if FirstTime(reports) != 0 then FirstTime(reports) else r.time
    ensures FirstTime([r]) == r.time
  {
    assert (reports + [r])[..|reports|] == reports;
    assert [r][..0] == [];
  }

  /** What an applied report leaves, by the numbers of the one before it. */
  lemma HandleDue(st: Status, r: Report)
    requires Due(st, r)
    ensures
      var steps, lost := Gap(st.highest, r.highest), Gap(st.cumulativeLost, r.cumulativeLost);
      Handle(st, r) == Status(r.time, r.highest, r.cumulativeLost, StepPercent(steps, lost, st.fraction), steps, lost)
  {
    SignedKeeps(SeqStep(st, r));
    SignedKeeps(LossStep(st, r));
  }

  lemma OneMore(applied: seq<Report>, r: Report)
    ensures
      var more := applied + [r];
      && HighestOf(more) == r.highest && LostOf(more) == r.cumulativeLost
      && PacketStep(more) == Gap(HighestOf(applied), r.highest)
      && LostStep(more) == Gap(LostOf(applied), r.cumulativeLost)
      && Shown(more) == StepPercent(PacketStep(more), LostStep(more), Shown(applied))
  {
    hide Gap, StepPercent;
    assert (applied + [r])[..|applied|] == applied;
  }

  lemma ReportTold(st: Status, t: Story, r: Report)
    requires AsTold(st, t)
    ensures AsTold(Handle(st, r), Continue(t, r))
  {
    hide HighestOf, LostOf, PacketStep, LostStep, Shown, Gap, StepPercent, FirstTime;
    FirstTimeSnoc(t.since, r);
    OneMore(t.applied, r);
    if Due(st, r) {
      hide Handle;
      HandleDue(st, r);
    }
  }

  /** After any run the numbers are those of the last applied report, the steps lead to it
      from the one before, and the percentage is that of the last step that has one. */
  lemma {:induction false} RunIsAsTold(reports: seq<Report>)
    ensures AsTold(Run(reports), Tell(reports))
    decreases |reports|
  {
    hide AsTold, Handle, Continue;
    if reports == [] {
      NothingTold(reports);
    } else {
      var before, r := reports[..|reports| - 1], reports[|reports| - 1];
      RunIsAsTold(before);
      ReportTold(Run(before), Tell(before), r);
      assert Run(reports) == Handle(Run(before), r);
      assert Tell(reports) == Continue(Tell(before), r);
    }
  }

  lemma NothingTold(reports: seq<Report>)
    requires reports == []
    ensures AsTold(Run(reports), Tell(reports))
  {
    hide Handle, Gap, StepPercent;
    assert Run(reports) == FRESH;
  }

  // ---------------------------------------------------------------- all sources

  function SumOfPackets(runs: seq<seq<Report>>): nat {
    if runs == [] then 0 else
      SumOfPackets(runs[..|runs| - 1]) + PacketStep(Tell(runs[|runs| - 1]).applied)
  }

  function SumOfLost(runs: seq<seq<Report>>): nat {
    if runs == [] then 0 else
      SumOfLost(runs[..|runs| - 1]) + LostStep(Tell(runs[|runs| - 1]).applied)
  }

  function SumOfCumulative(runs: seq<seq<Report>>): nat {
    if runs == [] then 0 else
      SumOfCumulative(runs[..|runs| - 1]) + LostOf(Tell(runs[|runs| - 1]).applied)
  }

  lemma {:induction false} SumsAreTold(runs: seq<seq<Report>>)
    ensures TotalExpected(States(runs)) == SumOfPackets(runs)
    ensures TotalLost(States(runs)) == SumOfLost(runs)
    ensures TotalCumulative(States(runs)) == SumOfCumulative(runs)
    decreases |runs|
  {
    hide Tell, Run, Shown, PacketStep, LostStep, LostOf, HighestOf, FirstTime;
    if runs != [] {
      var n := |runs| - 1;
      SumsAreTold(runs[..n]);
      RunIsAsTold(runs[n]);
      assert States(runs)[..n] == States(runs[..n]);
    }
  }

  /** The totals over any number of sources, each after any run: the sum of the cumulative
      losses last applied, and the percentage of the last steps. */
  lemma TotalsAreTold(runs: seq<seq<Report>>, was: uint32)
    ensures Wrap32(TotalCumulative(States(runs))) == SumOfCumulative(runs) % 0x1_0000_0000
    ensures
      var packets, lost := SumOfPackets(runs) % 0x1_0000_0000, SumOfLost(runs) % 0x1_0000_0000;
      TotalFraction(States(runs), was)
      == if packets > 0 then ((lost * 100) % 0x1_0000_0000 / packets) % 0x1_0000_0000 else was
  {
    hide SumOfPackets, SumOfLost, SumOfCumulative, TotalExpected, TotalLost, TotalCumulative;
    SumsAreTold(runs);
  }
}
