/** One downstream SSRC of a classroom participant: the record that rewrites the
    sequence numbers and timestamps of whichever source is linked to it
    (orbit/classroom_plugin.h:24-58, orbit/classroom_plugin.cc:75-88, 149-157).

    A run on one downstream SSRC is a sequence of events: the slot is linked to a
    new source, or a packet of the linked source passes through. The reference is
    a counter over the unbounded integers. */
module SwitchContext {
  import opened Common
  import opened Widths

  const TS_GAP := 2880
  const SEQ_GAP := 1

  datatype Context = Context(
    ssrc: uint32,
    sourceSsrc: uint32,
    seqNum: uint16,
    ts: uint32,
    lastTs: uint32,
    baseTs: uint32,
    lastSeq: uint16,
    baseSeq: uint16,
    sourceStreamId: int)

  // The member initialisers; -1 stored in an unsigned field is its largest value.
  const FRESH := Context(0, 0, 0, 0, 0, MAX_UINT32, 0, MAX_UINT16, 0)

  function Renew(c: Context, ssrc: uint32, sourceSsrc: uint32, streamId: int): Context {
    c.(baseTs := MAX_UINT32, baseSeq := MAX_UINT16,
       ssrc := ssrc, sourceSsrc := sourceSsrc, sourceStreamId := streamId)
  }

  /** Linking a slot whose context already exists. */
  function Relink(c: Context, ssrc: uint32, sourceSsrc: uint32, streamId: int): Context {
    Renew(c, ssrc, sourceSsrc, streamId).(lastTs := Wrap32(c.ts + TS_GAP), lastSeq := Wrap16(c.seqNum + SEQ_GAP))
  }

  /** A packet with header numbers s and ts. The 16-bit base is promoted to int
      before it is compared with -1; the 32-bit one is compared as unsigned. */
  function Advance(c: Context, s: uint16, ts: uint32): Context {
    var baseSeq := if c.baseSeq as int == -1 then s else c.baseSeq;
    var baseTs := if c.baseTs == MAX_UINT32 then ts else c.baseTs;
    c.(baseSeq := baseSeq, baseTs := baseTs,
       seqNum := Wrap16(c.lastSeq + (s - baseSeq)),
       ts := Wrap32(c.lastTs + (ts - baseTs)))
  }

  // ---------------------------------------------------------------- runs

  /** Source numbers are unbounded; the packet header carries them truncated. */
  datatype Event =
    | Link(sourceSsrc: uint32, streamId: int)
    | Packet(seqNum: int, ts: int)

  function Apply(c: Context, e: Event): Context {
    match e
    case Link(source, id) => Relink(c, c.ssrc, source, id)
    case Packet(s, t) => Advance(c, Wrap16(s), Wrap32(t))
  }

  /** The context after the first link to a source and then the given events. */
  function Run(events: seq<Event>): Context {
    if events == [] then FRESH else Apply(Run(events[..|events| - 1]), events[|events| - 1])
  }

  // ---------------------------------------------------------------- reference

  datatype Base = Unset | Set(value: int)

  /** The documented behaviour: the first number of a link is mapped to the
      anchor, later ones keep their distance to it. */
  datatype Counter = Counter(out: int, anchor: int, base: Base)

  function CountLink(c: Counter, gap: int): Counter {
    Counter(c.out, c.out + gap, Unset)
  }

  function CountPacket(c: Counter, x: int): Counter {
    var base := if c.base.Unset? then x else c.base.value;
    Counter(c.anchor + (x - base), c.anchor, Set(base))
  }

  function SeqCounter(events: seq<Event>): Counter {
    if events == [] then Counter(0, 0, Unset) else
      var c := SeqCounter(events[..|events| - 1]);
      var e := events[|events| - 1];
      if e.Link? then CountLink(c, 1) else CountPacket(c, e.seqNum)
  }

  function TsCounter(events: seq<Event>): Counter {
    if events == [] then Counter(0, 0, Unset) else
      var c := TsCounter(events[..|events| - 1]);
      var e := events[|events| - 1];
      if e.Link? then CountLink(c, 2880) else CountPacket(c, e.ts)
  }

  // ---------------------------------------------------------------- timestamps

  /** The position of the first packet since the last link. */
  function Opening(events: seq<Event>): Option<nat> {
    if events == [] then None else
      var before, last := events[..|events| - 1], events[|events| - 1];
      if last.Link? then None
      else if Opening(before).Some? then Opening(before)
      else Some(|before|)
  }

  lemma {:induction false} OpeningIsBase(events: seq<Event>)
    ensures
      match Opening(events)
      case None => TsCounter(events).base.Unset? && SeqCounter(events).base.Unset?
      case Some(k) =>
        && k < |events| && events[k].Packet?
        && TsCounter(events).base == Set(events[k].ts) && SeqCounter(events).base == Set(events[k].seqNum)
  {
    if events != [] {
      OpeningIsBase(events[..|events| - 1]);
    }
  }

  /** Packet k carries another timestamp than the marker though its link was opened by
      a packet that carries the marker. */
  ghost predicate Spoils(events: seq<Event>, k: int)
    requires 0 <= k < |events|
  {
    && events[k].Packet? && Wrap32(events[k].ts) != MAX_UINT32
    && match Opening(events[..k])
       case None => false
       case Some(first) => first < |events| && events[first].Packet? && Wrap32(events[first].ts) == MAX_UINT32
  }

  ghost predicate TsAgreesAfter(events: seq<Event>, k: int)
    requires 0 <= k <= |events|
  {
    Run(events[..k]).ts == Wrap32(TsCounter(events[..k]).out)
  }

  ghost predicate TsMatches(c: Context, k: Counter) {
    && c.ts == Wrap32(k.out)
    && c.lastTs == Wrap32(k.anchor)
    && c.baseTs == if k.base.Unset? then MAX_UINT32 else Wrap32(k.base.value)
  }

  /** One event: only a packet that spoils its link breaks the agreement. */
  lemma TsStep(c: Context, k: Counter, e: Event)
    requires TsMatches(c, k)
    ensures
      var next := if e.Link? then CountLink(k, TS_GAP) else CountPacket(k, e.ts);
      var spoils := e.Packet? && k.base.Set? && Wrap32(k.base.value) == MAX_UINT32 && Wrap32(e.ts) != MAX_UINT32;
      && (TsMatches(Apply(c, e), next) <==> !spoils)
      && (Apply(c, e).ts == Wrap32(next.out) <==> !spoils)
  {
    if e.Link? {
      WrapDistance32(k.out, TS_GAP, 0);
    } else {
      var base := if k.base.Unset? then e.ts else k.base.value;
      WrapDistance32(k.anchor, e.ts, base);
      var t := Wrap32(e.ts);
      if c.baseTs == MAX_UINT32 {
        SameDistance(Wrap32(k.anchor), t, Wrap32(base));
      }
    }
  }

  lemma SameDistance(a: uint32, t: uint32, b: uint32)
    ensures Wrap32(a + (t - b)) == a <==> t == b
  {
    var k := Turns32(a + (t - b));
  }

  lemma SpoilsWhen(events: seq<Event>, n: nat)
    requires n < |events|
    ensures
      var k := TsCounter(events[..n]);
      Spoils(events, n)
      <==> events[n].Packet? && k.base.Set? && Wrap32(k.base.value) == MAX_UINT32 && Wrap32(events[n].ts) != MAX_UINT32
  {
    OpeningIsBase(events[..n]);
  }

  lemma {:induction false} UnspoiledMatches(events: seq<Event>, n: nat)
    requires n <= |events| && forall k :: 0 <= k < n ==> !Spoils(events, k)
    ensures TsMatches(Run(events[..n]), TsCounter(events[..n]))
  {
    if n > 0 {
      UnspoiledMatches(events, n - 1);
      SpoilsWhen(events, n - 1);
      assert events[..n][..n - 1] == events[..n - 1];
      TsStep(Run(events[..n - 1]), TsCounter(events[..n - 1]), events[n - 1]);
    } else {
      assert events[..0] == [];
    }
  }

  /** Over every run the rewritten timestamp is the unbounded counter modulo 2^32 all along
      if and only if every link that is opened by a packet with the marker as its timestamp
      carries the marker only. */
  lemma TimestampFollowsCounterIff(events: seq<Event>)
    ensures (forall k :: 0 <= k <= |events| ==> TsAgreesAfter(events, k))
       <==> (forall k :: 0 <= k < |events| ==> !Spoils(events, k))
  {
    hide Spoils, Run, TsCounter, TsMatches;
    if forall k :: 0 <= k < |events| ==> !Spoils(events, k) {
      forall n | 0 <= n <= |events| ensures TsAgreesAfter(events, n) {
        UnspoiledMatches(events, n);
        MatchesAgrees(events, n);
      }
    }
    if forall k :: 0 <= k <= |events| ==> TsAgreesAfter(events, k) {
      AgreementUnspoiled(events, |events|);
    }
  }

  lemma MatchesAgrees(events: seq<Event>, n: nat)
    requires n <= |events| && TsMatches(Run(events[..n]), TsCounter(events[..n]))
    ensures TsAgreesAfter(events, n)
  {}

  lemma {:induction false} AgreementUnspoiled(events: seq<Event>, n: nat)
    requires n <= |events| && forall k :: 0 <= k <= n ==> TsAgreesAfter(events, k)
    ensures forall k :: 0 <= k < n ==> !Spoils(events, k)
  {
    if n > 0 {
      AgreementUnspoiled(events, n - 1);
      UnspoiledMatches(events, n - 1);
      SpoilsWhen(events, n - 1);
      assert events[..n][..n - 1] == events[..n - 1];
      TsStep(Run(events[..n - 1]), TsCounter(events[..n - 1]), events[n - 1]);
      assert TsAgreesAfter(events, n);
    }
  }

  /** The marker is what spoils it: after a link, two packets keep their distance
      exactly when the first does not carry the marker (or the two coincide). */
  lemma FirstTwoTimestamps(c: Context, ssrc: uint32, source: uint32, id: int,
                           s1: uint16, t1: uint32, s2: uint16, t2: uint32)
    ensures
      var c1 := Advance(Relink(c, ssrc, source, id), s1, t1);
      var c2 := Advance(c1, s2, t2);
      && c1.ts == Wrap32(c.ts + 2880)
      && (Wrap32(c2.ts - c1.ts) == Wrap32(t2 - t1) <==> t1 != MAX_UINT32 || t2 == t1)
  {
    hide Wrap32, Wrap16;
    var c1 := Advance(Relink(c, ssrc, source, id), s1, t1);
    var c2 := Advance(c1, s2, t2);
    NoWrap32(c1.lastTs);
    if t1 == MAX_UINT32 {
      assert c2.ts == Wrap32(c1.lastTs + (t2 - t2)) == c1.ts;
      SameTimes(t1, t2);
    } else {
      assert c2.ts == Wrap32(c1.lastTs + (t2 - t1));
      StepBack32(c1.ts, t2 - t1);
    }
  }

  lemma SameTimes(t1: uint32, t2: uint32)
    ensures Wrap32(t2 - t1) == 0 <==> t1 == t2
    ensures Wrap32(0) == 0
  {}

  lemma StepBack32(a: uint32, d: int)
    ensures Wrap32(Wrap32(a + d) - a) == Wrap32(d)
  {
    var k := Turns32(a + d);
    SameWrap32(d, Wrap32(a + d) - a, k);
  }

  // ---------------------------------------------------------------- sequence numbers

  /** events[k] is the first packet since the last link. */
  ghost predicate Opens(events: seq<Event>, k: int)
    requires 0 <= k < |events|
  {
    events[k].Packet? && SeqCounter(events[..k]).base.Unset?
  }

  ghost predicate SeqAgreesAfter(events: seq<Event>, k: int)
    requires 0 <= k <= |events|
  {
    Run(events[..k]).seqNum == Wrap16(SeqCounter(events[..k]).out)
  }

  /** The 16-bit sentinel test never succeeds, so the base is always 65535. */
  lemma {:induction false} SeqBaseNeverSet(events: seq<Event>)
    ensures Run(events).baseSeq == MAX_UINT16
  {
    if events != [] {
      SeqBaseNeverSet(events[..|events| - 1]);
    }
  }

  ghost predicate PacketsOnly(events: seq<Event>) {
    forall k :: 0 <= k < |events| ==> events[k].Packet?
  }

  lemma {:induction false} InsideLink(before: seq<Event>, packets: seq<Event>)
    requires PacketsOnly(packets)
    ensures Run(before + packets).lastSeq == Run(before).lastSeq
    ensures packets != [] ==>
      Run(before + packets).seqNum
      == Wrap16(Run(before).lastSeq + (Wrap16(packets[|packets| - 1].seqNum) - MAX_UINT16))
    decreases |packets|
  {
    if packets == [] {
      assert before + packets == before;
    } else {
      var first := packets[..|packets| - 1];
      InsideLink(before, first);
      SeqBaseNeverSet(before + first);
      assert (before + packets)[..|before + packets| - 1] == before + first;
    }
  }

  /** Inside one link the code keeps the distance of any two packets, whatever the
      numbers are. */
  lemma SeqDistanceKept(before: seq<Event>, packets: seq<Event>, i: nat, j: nat)
    requires PacketsOnly(packets) && i < |packets| && j < |packets|
    ensures
      Wrap16(Run(before + packets[..j + 1]).seqNum - Run(before + packets[..i + 1]).seqNum)
      == Wrap16(packets[j].seqNum - packets[i].seqNum)
  {
    hide Run;
    InsideLink(before, packets[..i + 1]);
    InsideLink(before, packets[..j + 1]);
    WrapOffset16(Run(before).lastSeq, packets[i].seqNum, packets[j].seqNum);
  }

  /** Across a link the code continues at the previous number plus one only for a
      source that starts at 65535, and repeats the previous number for 65534. */
  lemma FirstNumberAfterLink(c: Context, ssrc: uint32, source: uint32, id: int, s: uint16, t: uint32)
    ensures
      var c1 := Advance(Relink(c, ssrc, source, id), s, t);
      && (c1.seqNum == Wrap16(c.seqNum + 1) <==> s == 65535)
      && (c1.seqNum == c.seqNum <==> s == 65534)
  {
    var c1 := Advance(Relink(c, ssrc, source, id), s, t);
    assert c1.seqNum == Wrap16(c.seqNum + s + 2);
  }

  ghost predicate SeqMatches(c: Context, k: Counter) {
    && c.seqNum == Wrap16(k.out)
    && c.lastSeq == Wrap16(k.anchor)
    && c.baseSeq == MAX_UINT16
    && (k.base.Set? ==> Wrap16(k.base.value) == 65535)
  }

  /** One event: only the packet that opens a link can break the agreement. */
  lemma SeqStep(c: Context, k: Counter, e: Event)
    requires SeqMatches(c, k)
    ensures
      var next := if e.Link? then CountLink(k, SEQ_GAP) else CountPacket(k, e.seqNum);
      var opens := e.Packet? && k.base.Unset?;
      && (SeqMatches(Apply(c, e), next) <==> (opens ==> Wrap16(e.seqNum) == 65535))
      && (Apply(c, e).seqNum == Wrap16(next.out) <==> (opens ==> Wrap16(e.seqNum) == 65535))
  {
    if e.Link? {
      WrapDistance16(k.out, SEQ_GAP, 0);
    } else if k.base.Set? {
      WrapDistance16(k.anchor, e.seqNum, k.base.value);
    } else {
      assert Apply(c, e).seqNum == Wrap16(c.lastSeq + (Wrap16(e.seqNum) - 65535));
      OpeningNumber(c.lastSeq, Wrap16(e.seqNum));
    }
  }

  lemma OpeningNumber(last: uint16, s: uint16)
    ensures Wrap16(last + (s - 65535)) == last <==> s == 65535
  {}

  lemma {:induction false} OpeningsGiveAgreement(events: seq<Event>)
    requires forall k :: 0 <= k < |events| && Opens(events, k) ==> Wrap16(events[k].seqNum) == 65535
    ensures SeqMatches(Run(events), SeqCounter(events))
  {
    if events != [] {
      var n := |events| - 1;
      var before := events[..n];
      forall k | 0 <= k < |before| && Opens(before, k) ensures Wrap16(before[k].seqNum) == 65535 {
        assert before[..k] == events[..k];
        assert Opens(events, k);
      }
      OpeningsGiveAgreement(before);
      assert events[n].Packet? && SeqCounter(before).base.Unset? ==> Opens(events, n);
      SeqStep(Run(before), SeqCounter(before), events[n]);
    }
  }

  lemma {:induction false} AgreementGivesOpenings(events: seq<Event>)
    requires forall k :: 0 <= k <= |events| ==> SeqAgreesAfter(events, k)
    ensures forall k :: 0 <= k < |events| && Opens(events, k) ==> Wrap16(events[k].seqNum) == 65535
    ensures SeqMatches(Run(events), SeqCounter(events))
  {
    if events != [] {
      var n := |events| - 1;
      var before := events[..n];
      forall k | 0 <= k <= |before| ensures SeqAgreesAfter(before, k) {
        assert before[..k] == events[..k];
        assert SeqAgreesAfter(events, k);
      }
      AgreementGivesOpenings(before);
      assert events[..|events|] == events;
      assert SeqAgreesAfter(events, |events|);
      SeqStep(Run(before), SeqCounter(before), events[n]);
      forall k | 0 <= k < |events| && Opens(events, k) ensures Wrap16(events[k].seqNum) == 65535 {
        if k < n {
          assert before[..k] == events[..k];
          assert Opens(before, k);
        }
      }
    }
  }

  /** The code's sequence numbers follow the documented counter through a whole
      run if and only if every source opens its link with the number 65535. */
  lemma SequenceFollowsCounterIff(events: seq<Event>)
    ensures (forall k :: 0 <= k <= |events| ==> SeqAgreesAfter(events, k))
       <==> (forall k :: 0 <= k < |events| && Opens(events, k) ==> Wrap16(events[k].seqNum) == 65535)
  {
    if forall k :: 0 <= k <= |events| ==> SeqAgreesAfter(events, k) {
      AgreementGivesOpenings(events);
    }
    if forall k :: 0 <= k < |events| && Opens(events, k) ==> Wrap16(events[k].seqNum) == 65535 {
      forall n | 0 <= n <= |events| ensures SeqAgreesAfter(events, n) {
        var before := events[..n];
        forall k | 0 <= k < |before| && Opens(before, k) ensures Wrap16(before[k].seqNum) == 65535 {
          assert before[..k] == events[..k];
          assert Opens(events, k);
        }
        OpeningsGiveAgreement(before);
      }
    }
  }

  /** A concrete run in which a source that starts at 65534 repeats a number. */
  lemma RepeatedNumber()
    ensures
      var events := [Packet(7, 0), Link(2, 2), Packet(65534, 0)];
      Run(events[..1]).seqNum == Run(events).seqNum && SeqCounter(events).out == SeqCounter(events[..1]).out + 1
  {
    var events := [Packet(7, 0), Link(2, 2), Packet(65534, 0)];
    assert events[..1] == [Packet(7, 0)] && events[..2] == [Packet(7, 0), Link(2, 2)];
    assert events[..1][..0] == [] && events[..2][..1] == events[..1];
    var c1 := Run(events[..1]);
    var c2 := Run(events[..2]);
    assert c2 == Apply(c1, Link(2, 2)) && Run(events) == Apply(c2, Packet(65534, 0));
    var k1 := SeqCounter(events[..1]);
    var k2 := SeqCounter(events[..2]);
    assert k2 == CountLink(k1, SEQ_GAP) && SeqCounter(events) == CountPacket(k2, 65534);
  }

  // ---------------------------------------------------------------- order

  /** Every source sends in order: between two links the numbers increase. */
  ghost predicate InOrder(events: seq<Event>) {
    forall i :: 0 < i < |events| && events[i - 1].Packet? && events[i].Packet? ==>
      events[i - 1].seqNum < events[i].seqNum
  }

  ghost predicate HasPacket(events: seq<Event>) {
    exists i :: 0 <= i < |events| && events[i].Packet?
  }

  /** What the counter knows about the run behind it. */
  lemma {:induction false} CounterShape(events: seq<Event>)
    ensures
      var k := SeqCounter(events);
      if k.base.Unset? then HasPacket(events) ==> k.anchor == k.out + SEQ_GAP
      else events != [] && events[|events| - 1].Packet? && k.out == k.anchor + (events[|events| - 1].seqNum - k.base.value)
  {
    if events != [] {
      var n := |events| - 1;
      var before := events[..n];
      CounterShape(before);
    }
  }

  /** With in-order sources the counter never goes back: each packet gets a number
      above every earlier packet's, across any number of links in between. */
  lemma {:induction false} CounterIncreases(events: seq<Event>, i: int)
    requires InOrder(events)
    requires 0 <= i < |events| - 1 && events[i].Packet? && events[|events| - 1].Packet?
    ensures SeqCounter(events[..i + 1]).out < SeqCounter(events).out
  {
    var n := |events| - 1;
    var before := events[..n];
    CounterShape(before);
    assert before[i].Packet?;
    var k := SeqCounter(before);
    if k.base.Set? {
      assert events[n - 1] == before[n - 1];
      assert events[n - 1].seqNum < events[n].seqNum;
    }
    assert k.out < SeqCounter(events).out;
    CounterNeverDrops(events, i + 1, n);
  }

  lemma {:induction false} CounterNeverDrops(events: seq<Event>, i: int, n: int)
    requires InOrder(events) && 0 <= i <= n <= |events|
    ensures HasPacket(events[..i]) ==> SeqCounter(events[..i]).out <= SeqCounter(events[..n]).out
    decreases n
  {
    if i < n {
      CounterNeverDrops(events, i, n - 1);
      var before := events[..n - 1];
      assert events[..n][..n - 1] == before;
      CounterShape(before);
      if HasPacket(events[..i]) && events[n - 1].Packet? {
        var p :| 0 <= p < i && events[..i][p].Packet?;
        assert before[p].Packet?;
        var k := SeqCounter(before);
        if k.base.Set? {
          assert before[n - 2] == events[n - 2];
          assert events[n - 2].seqNum < events[n - 1].seqNum;
        }
      }
    }
  }

  // ---------------------------------------------------------------- the numbers the code writes

  /** The counter that the code's arithmetic follows whatever the numbers: at each link it
      goes on from the last number by the first source number and two. */
  datatype Jump = Jump(out: int, anchor: int)

  function JumpCounter(events: seq<Event>): Jump {
    if events == [] then Jump(0, 0) else
      var c := JumpCounter(events[..|events| - 1]);
      match events[|events| - 1]
      case Link(_, _) => Jump(c.out, c.out + 1)
      case Packet(x, _) => Jump(c.anchor + (x + 1), c.anchor)
  }

  /** Over every run the code's sequence number is that counter in 16 bits. */
  lemma {:induction false} SequenceRefinesJumps(events: seq<Event>)
    ensures Run(events).seqNum == Wrap16(JumpCounter(events).out)
    ensures Run(events).lastSeq == Wrap16(JumpCounter(events).anchor)
  {
    if events != [] {
      var before, e := events[..|events| - 1], events[|events| - 1];
      SequenceRefinesJumps(before);
      SeqBaseNeverSet(before);
      var k := JumpCounter(before);
      match e
      case Link(_, _) =>
        WrapDistance16(k.out, SEQ_GAP, 0);
      case Packet(x, _) =>
        WrapDistance16(k.anchor, x, -1);
    }
  }

  // ---------------------------------------------------------------- what a receiver sees

  /** How far a receiver takes now to be from was: the shorter way around (section 5.1 of
      RFC 3550 leaves 16 bits of the number, appendix A.1 extends them again). */
  function Distance(was: uint16, now: uint16): int {
    var d := Wrap16(now - was);
    if d < 0x8000 then d else d - 0x1_0000
  }

  /** The number of the last packet as the receiver extends it, counted from 0. */
  function Extended(events: seq<Event>): int {
    if events == [] then 0 else
      var before := events[..|events| - 1];
      if events[|events| - 1].Link? then Extended(before)
      else Extended(before) + Distance(Run(before).seqNum, Run(events).seqNum)
  }

  lemma {:induction false} ExtendedEndsIn(events: seq<Event>)
    ensures Wrap16(Extended(events)) == Run(events).seqNum
  {
    if events != [] {
      var before := events[..|events| - 1];
      ExtendedEndsIn(before);
      if events[|events| - 1].Packet? {
        DistanceEndsIn(Extended(before), Run(before).seqNum, Run(events).seqNum);
      }
    }
  }

  lemma DistanceEndsIn(x: int, was: uint16, now: uint16)
    requires Wrap16(x) == was
    ensures Wrap16(x + Distance(was, now)) == now
  {
    var i := Turns16(x);
    var j := Turns16(now - was);
    SameWrap16(now, x + Distance(was, now), (if Wrap16(now - was) < 0x8000 then 0 else 1) + j - i);
  }

  /** Packet k goes on from the packet or the link before it: ahead of the packet by less
      than half a turn, or opening the link with a number that is ahead after two more. */
  predicate GoesOn(events: seq<Event>, k: int)
    requires 0 < k < |events| && events[k].Packet?
  {
    if events[k - 1].Packet? then Distance(Wrap16(events[k - 1].seqNum), Wrap16(events[k].seqNum)) > 0
    else Wrap16(events[k].seqNum) == 65535 || Wrap16(events[k].seqNum) <= 32765
  }

  lemma DistanceOf(was: uint16, now: uint16, d: int)
    requires now == Wrap16(was + d)
    ensures Distance(was, now) == if Wrap16(d) < 0x8000 then Wrap16(d) else Wrap16(d) - 0x1_0000
  {
    var i := Turns16(was + d);
    SameWrap16(d, now - was, i);
  }

  lemma DistanceInside(last: uint16, y: uint16, x: uint16)
    ensures Distance(Wrap16(last + (y - MAX_UINT16)), Wrap16(last + (x - MAX_UINT16))) == Distance(y, x)
  {
    var i := Turns16(last + (y - MAX_UINT16));
    SameWrap16(last + (x - MAX_UINT16), Wrap16(last + (y - MAX_UINT16)) + (x - y), i);
    DistanceOf(Wrap16(last + (y - MAX_UINT16)), Wrap16(last + (x - MAX_UINT16)), x - y);
  }

  lemma DistanceAcross(was: uint16, x: int)
    ensures Distance(was, Wrap16(Wrap16(was + SEQ_GAP) + (Wrap16(x) - MAX_UINT16))) == Distance(0, Wrap16(x + 2))
  {
    var i := Turns16(was + SEQ_GAP);
    var j := Turns16(x);
    SameWrap16(Wrap16(was + SEQ_GAP) + (Wrap16(x) - MAX_UINT16), was + (x + 2), -i - j - 1);
    DistanceOf(was, Wrap16(was + (x + 2)), x + 2);
    DistanceOf(0, Wrap16(x + 2), x + 2);
  }

  /** How far the written number moves at packet k. */
  lemma WrittenStep(events: seq<Event>, k: int)
    requires 0 < k < |events| && events[k].Packet?
    ensures
      Distance(Run(events[..k]).seqNum, Run(events[..k + 1]).seqNum)
      == if events[k - 1].Packet? then Distance(Wrap16(events[k - 1].seqNum), Wrap16(events[k].seqNum))
         else Distance(0, Wrap16(events[k].seqNum + 2))
  {
    hide Distance, Wrap16, Wrap32;
    assert events[..k + 1][..k] == events[..k] && events[..k][..k - 1] == events[..k - 1];
    SeqBaseNeverSet(events[..k]);
    SeqBaseNeverSet(events[..k - 1]);
    var c := Run(events[..k]);
    assert Run(events[..k + 1]) == Apply(c, events[k]);
    assert c == Apply(Run(events[..k - 1]), events[k - 1]);
    if events[k - 1].Packet? {
      DistanceInside(c.lastSeq, Wrap16(events[k - 1].seqNum), Wrap16(events[k].seqNum));
    } else {
      DistanceAcross(c.seqNum, events[k].seqNum);
    }
  }

  lemma StepsAhead(events: seq<Event>, k: int)
    requires 0 < k < |events| && events[k].Packet?
    ensures Extended(events[..k + 1]) > Extended(events[..k]) <==> GoesOn(events, k)
  {
    hide Run, Distance;
    WrittenStep(events, k);
    assert events[..k + 1][..k] == events[..k];
    if events[k - 1].Link? {
      OpeningDistance(events[k].seqNum);
    }
  }

  lemma OpeningDistance(x: int)
    ensures Distance(0, Wrap16(x + 2)) > 0 <==> Wrap16(x) == 65535 || Wrap16(x) <= 32765
    ensures Distance(0, Wrap16(x + 2)) == 1 <==> Wrap16(x) == 65535
  {
    var i := Turns16(x);
    SameWrap16(x + 2, Wrap16(x) + 2, i);
  }

  /** Between a packet and the next one nothing is extended. */
  lemma {:induction false} PacketBefore(events: seq<Event>) returns (p: int)
    requires HasPacket(events)
    ensures 0 <= p < |events| && events[p].Packet? && Extended(events[..p + 1]) == Extended(events)
    ensures SeqCounter(events[..p + 1]).out == SeqCounter(events).out
  {
    var n := |events| - 1;
    if events[n].Packet? {
      p := n;
      assert events[..n + 1] == events;
    } else {
      var before := events[..n];
      var q :| 0 <= q < |events| && events[q].Packet?;
      assert before[q].Packet?;
      p := PacketBefore(before);
      assert events[..p + 1] == before[..p + 1];
    }
  }

  /** Every packet is ahead of every earlier one for the receiver. */
  ghost predicate SeenRising(events: seq<Event>) {
    forall i, j :: 0 <= i < j < |events| && events[i].Packet? && events[j].Packet? ==>
      Extended(events[..i + 1]) < Extended(events[..j + 1])
  }

  lemma {:induction false} RisesFrom(events: seq<Event>, i: int, n: int)
    requires 0 <= i < n <= |events| && events[i].Packet?
    requires forall k :: 0 < k < |events| && events[k].Packet? && HasPacket(events[..k]) ==> GoesOn(events, k)
    ensures Extended(events[..i + 1]) <= Extended(events[..n])
    ensures i + 1 < n && events[n - 1].Packet? ==> Extended(events[..i + 1]) < Extended(events[..n])
    decreases n
  {
    hide GoesOn, Run, Distance;
    if i + 1 < n {
      RisesFrom(events, i, n - 1);
      assert events[..n][..n - 1] == events[..n - 1];
      if events[n - 1].Packet? {
        assert events[..n - 1][i].Packet?;
        StepsAhead(events, n - 1);
      }
    }
  }

  /** Over every run, whatever the sources send: the receiver sees rising numbers if and only
      if inside a link each packet is ahead of the one before it, and every link after the
      first packet is opened with 65535 or a number up to 32765. */
  lemma NumbersRiseIff(events: seq<Event>)
    ensures SeenRising(events)
       <==> forall k :: 0 < k < |events| && events[k].Packet? && HasPacket(events[..k]) ==> GoesOn(events, k)
  {
    hide GoesOn, Extended, HasPacket;
    if SeenRising(events) {
      forall k | 0 < k < |events| && events[k].Packet? && HasPacket(events[..k]) ensures GoesOn(events, k) {
        var p := PacketBefore(events[..k]);
        assert events[..k][..p + 1] == events[..p + 1] && events[..k][p] == events[p];
        StepsAhead(events, k);
      }
    }
    if forall k :: 0 < k < |events| && events[k].Packet? && HasPacket(events[..k]) ==> GoesOn(events, k) {
      forall i, j | 0 <= i < j < |events| && events[i].Packet? && events[j].Packet?
        ensures Extended(events[..i + 1]) < Extended(events[..j + 1])
      {
        RisesFrom(events, i, j + 1);
      }
    }
  }

  /** A source that opens its link with 40000 sends the receiver back by 25534. */
  lemma StepsBack()
    ensures
      var events := [Packet(7, 0), Link(2, 2), Packet(40000, 0)];
      Run(events[..1]).seqNum == 8 && Run(events).seqNum == 40010
      && Extended(events) == Extended(events[..1]) - 25534
  {
    var events := [Packet(7, 0), Link(2, 2), Packet(40000, 0)];
    assert events[..1] == [Packet(7, 0)] && events[..2] == [Packet(7, 0), Link(2, 2)];
    assert events[..1][..0] == [] && events[..2][..1] == events[..1];
    assert Run(events[..1]) == Apply(FRESH, Packet(7, 0));
    assert Run(events[..2]) == Apply(Run(events[..1]), Link(2, 2));
    assert Run(events) == Apply(Run(events[..2]), Packet(40000, 0));
    assert Extended(events[..2]) == Extended(events[..1]);
  }

  // ---------------------------------------------------------------- the documented numbers, seen

  /** Inside a link the source goes ahead by less than half a turn. */
  ghost predicate Paced(events: seq<Event>) {
    forall i :: 0 < i < |events| && events[i - 1].Packet? && events[i].Packet? ==>
      0 < events[i].seqNum - events[i - 1].seqNum < 0x8000
  }

  /** The receiver sees the distances of the documented counter. */
  ghost predicate SeenAsCounted(events: seq<Event>) {
    forall i, j :: 0 <= i < j < |events| && events[i].Packet? && events[j].Packet? ==>
      Extended(events[..j + 1]) - Extended(events[..i + 1])
      == SeqCounter(events[..j + 1]).out - SeqCounter(events[..i + 1]).out
  }

  lemma CountsAlong(events: seq<Event>, k: int)
    requires Paced(events) && 0 < k < |events| && events[k].Packet? && HasPacket(events[..k])
    ensures
      Extended(events[..k + 1]) - Extended(events[..k]) == SeqCounter(events[..k + 1]).out - SeqCounter(events[..k]).out
      <==> (Opens(events, k) ==> Wrap16(events[k].seqNum) == 65535)
  {
    hide Run, Distance, HasPacket;
    WrittenStep(events, k);
    assert events[..k + 1][..k] == events[..k] && events[..k][k - 1] == events[k - 1];
    CounterShape(events[..k]);
    OpeningDistance(events[k].seqNum);
    if events[k - 1].Packet? {
      assert SeqCounter(events[..k]).base.Set? by { PacketSetsBase(events, k); }
      PacedDistance(events[k - 1].seqNum, events[k].seqNum);
    } else {
      LinkUnsetsBase(events, k);
    }
  }

  lemma PacketSetsBase(events: seq<Event>, k: int)
    requires 0 < k <= |events| && events[k - 1].Packet?
    ensures SeqCounter(events[..k]).base.Set?
  {}

  lemma LinkUnsetsBase(events: seq<Event>, k: int)
    requires 0 < k <= |events| && events[k - 1].Link?
    ensures SeqCounter(events[..k]).base.Unset?
  {}

  lemma PacedDistance(x: int, y: int)
    requires 0 < y - x < 0x8000
    ensures Distance(Wrap16(x), Wrap16(y)) == y - x
  {
    var i := Turns16(x);
    var j := Turns16(y);
    SameWrap16(y - x, Wrap16(y) - Wrap16(x), j - i);
  }

  lemma {:induction false} CountsFrom(events: seq<Event>, i: int, n: int)
    requires Paced(events) && 0 <= i < n <= |events| && events[i].Packet?
    requires forall k :: 0 < k < |events| && HasPacket(events[..k]) && Opens(events, k) ==> Wrap16(events[k].seqNum) == 65535
    ensures
      Extended(events[..n]) - Extended(events[..i + 1]) == SeqCounter(events[..n]).out - SeqCounter(events[..i + 1]).out
    decreases n
  {
    hide Opens, Run, Distance, Paced;
    if i + 1 < n {
      CountsFrom(events, i, n - 1);
      assert events[..n][..n - 1] == events[..n - 1];
      if events[n - 1].Packet? {
        assert events[..n - 1][i].Packet?;
        CountsAlong(events, n - 1);
      }
    }
  }

  /** Over every run of sources that go ahead inside their links, the receiver sees the
      documented counter if and only if every link after the first packet is opened with 65535. */
  lemma SeenAsCountedIff(events: seq<Event>)
    requires Paced(events)
    ensures SeenAsCounted(events)
       <==> forall k :: 0 < k < |events| && HasPacket(events[..k]) && Opens(events, k) ==> Wrap16(events[k].seqNum) == 65535
  {
    hide Extended, SeqCounter, HasPacket, Paced;
    if SeenAsCounted(events) {
      forall k | 0 < k < |events| && HasPacket(events[..k]) && Opens(events, k)
        ensures Wrap16(events[k].seqNum) == 65535
      {
        var p := PacketBefore(events[..k]);
        assert events[..k][..p + 1] == events[..p + 1] && events[..k][p] == events[p];
        CountsAlong(events, k);
      }
    }
    if forall k :: 0 < k < |events| && HasPacket(events[..k]) && Opens(events, k) ==> Wrap16(events[k].seqNum) == 65535 {
      forall i, j | 0 <= i < j < |events| && events[i].Packet? && events[j].Packet?
        ensures Extended(events[..j + 1]) - Extended(events[..i + 1])
             == SeqCounter(events[..j + 1]).out - SeqCounter(events[..i + 1]).out
      {
        CountsFrom(events, i, j + 1);
      }
    }
  }
}
