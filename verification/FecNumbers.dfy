/** Sequence numbers of media packets and the FEC packets between them:
    TransportDelegate::SendPacketAsFec, ResetSequenceNumberNotContainFec and
    GenerateNextFecSequenceNumber (orbit/transport_delegate.cc:736-780, 1060-1080). */
module FecNumbers {
  import opened Widths

  /** recv_next_sequence_number_, current_fec_seqnumber_ and fec_send_count_. */
  datatype Counters = Counters(recvNext: uint16, current: uint16, fecCount: uint16)

  const START := Counters(0, 0, 0)

  /** The FEC producer numbers consecutively from the start value it is given. */
  function Consecutive(start: uint16, count: nat): (numbers: seq<uint16>)
    ensures |numbers| == count
    ensures forall k :: 0 <= k < count ==> numbers[k] == Wrap16(start + k)
  {
    if count == 0 then [] else Consecutive(start, count - 1) + [Wrap16(start + (count - 1))]
  }

  /** One call in which the producer has count FEC packets ready: the counters after it
      and the numbers given, the media packet first. */
  function Send(c: Counters, count: uint16): (Counters, seq<uint16>) {
    var media := Wrap16(c.recvNext + c.fecCount);
    var next := Wrap16(c.recvNext + 1);
    if count == 0 then (Counters(next, media, c.fecCount), [media]) else
      var counted := Wrap16(c.fecCount + 1);
      (Counters(next, media, Wrap16(counted + (count - 1))), [media] + Consecutive(Wrap16(media + 1), count))
  }

  function Run(counts: seq<uint16>): (Counters, seq<uint16>) {
    if counts == [] then (START, []) else
      var before := Run(counts[..|counts| - 1]);
      var step := Send(before.0, counts[|counts| - 1]);
      (step.0, before.1 + step.1)
  }

  lemma SendAdvances(c: Counters, count: uint16, given: nat)
    requires Wrap16(c.recvNext + c.fecCount) == Wrap16(given)
    ensures Wrap16(Send(c, count).0.recvNext + Send(c, count).0.fecCount) == Wrap16(given + 1 + count)
    ensures |Send(c, count).1| == 1 + count
  {
    var d := Send(c, count).0;
    var i := Turns16(c.recvNext + c.fecCount);
    var j := Turns16(given);
    var k := Turns16(c.recvNext + 1);
    if count == 0 {
      SameWrap16(d.recvNext + d.fecCount, given + 1, i - j - k);
    } else {
      var l := Turns16(c.fecCount + 1);
      var m := Turns16(Wrap16(c.fecCount + 1) + (count - 1));
      SameWrap16(d.recvNext + d.fecCount, given + 1 + count, i - j - k - l - m);
    }
  }

  lemma SendNumbers(c: Counters, count: uint16, given: nat, k: nat)
    requires Wrap16(c.recvNext + c.fecCount) == Wrap16(given) && k < 1 + count
    ensures |Send(c, count).1| == 1 + count && Send(c, count).1[k] == Wrap16(given + k)
  {
    if k > 0 {
      var media: int := Wrap16(c.recvNext + c.fecCount);
      var i := Turns16(given);
      var j := Turns16(media + 1);
      SameWrap16(given + k, Wrap16(media + 1) + (k - 1), i + j);
    }
  }

  /** Over any run of calls the numbers given to media and FEC packets together are
      0, 1, 2, ... in 16 bits. */
  lemma {:induction false} NumbersHaveNoGap(counts: seq<uint16>)
    ensures
      var c := Run(counts).0;
      var given := Run(counts).1;
      && Wrap16(c.recvNext + c.fecCount) == Wrap16(|given|)
      && forall k :: 0 <= k < |given| ==> given[k] == Wrap16(k)
    decreases |counts|
  {
    hide Send;
    if counts != [] {
      var before := Run(counts[..|counts| - 1]);
      NumbersHaveNoGap(counts[..|counts| - 1]);
      var count := counts[|counts| - 1];
      SendAdvances(before.0, count, |before.1|);
      var given := before.1 + Send(before.0, count).1;
      forall k | 0 <= k < |given|
        ensures given[k] == Wrap16(k)
      {
        if k >= |before.1| {
          SendNumbers(before.0, count, |before.1|, k - |before.1|);
        }
      }
    }
  }

  function SumOf(counts: seq<uint16>): nat {
    if counts == [] then 0 else SumOf(counts[..|counts| - 1]) + counts[|counts| - 1]
  }

  /** The counters are the number of media packets, that of FEC packets, and the number given
      to the last media packet. */
  lemma {:induction false} CountersTell(counts: seq<uint16>)
    ensures
      var c := Run(counts).0;
      && c.recvNext == Wrap16(|counts|) && c.fecCount == Wrap16(SumOf(counts))
      && c.current == if counts == [] then 0 else Wrap16(|counts| - 1 + SumOf(counts[..|counts| - 1]))
    ensures |Run(counts).1| == |counts| + SumOf(counts)
    decreases |counts|
  {
    if counts != [] {
      var before, count := counts[..|counts| - 1], counts[|counts| - 1];
      CountersTell(before);
      SendCounts(Run(before).0, count, |before|, SumOf(before));
    }
  }

  lemma SendCounts(c: Counters, count: uint16, media: nat, fec: nat)
    requires c.recvNext == Wrap16(media) && c.fecCount == Wrap16(fec)
    ensures
      var (d, given) := Send(c, count);
      && d.recvNext == Wrap16(media + 1) && d.fecCount == Wrap16(fec + count) && d.current == Wrap16(media + fec)
      && |given| == 1 + count
  {
    var i := Turns16(media);
    var j := Turns16(fec);
    SameWrap16(media + 1, c.recvNext + 1, i);
    SameWrap16(media + fec, c.recvNext + c.fecCount, i + j);
    SameWrap16(fec + count, c.fecCount + count, j);
    if count > 0 {
      var k := Turns16(c.fecCount + 1);
      SameWrap16(c.fecCount + count, Wrap16(c.fecCount + 1) + (count - 1), k);
    }
  }

  /** Two packets have the same number exactly when a multiple of 65536 lies between them. */
  lemma NumbersRepeatIff(counts: seq<uint16>, i: nat, j: nat)
    requires i < |Run(counts).1| && j < |Run(counts).1|
    ensures Run(counts).1[i] == Run(counts).1[j] <==> (j - i) % 0x1_0000 == 0
  {
    hide Run;
    NumbersHaveNoGap(counts);
    SameNumber(i, j);
  }

  lemma SameNumber(i: nat, j: nat)
    ensures Wrap16(i) == Wrap16(j) <==> (j - i) % 0x1_0000 == 0
  {}

  class TransportDelegate {
    var recvNextSequenceNumber: uint16
    var currentFecSeqNumber: uint16
    var fecSendCount: uint16
    var sent: seq<uint16>

    ghost function Counts(): Counters
      reads this
    {
      Counters(recvNextSequenceNumber, currentFecSeqNumber, fecSendCount)
    }

    constructor ()
      ensures Counts() == START && sent == []
    {
      recvNextSequenceNumber, currentFecSeqNumber, fecSendCount := 0, 0, 0;
      sent := [];
    }

    method ResetSequenceNumberNotContainFec() returns (number: uint16)
      modifies this`recvNextSequenceNumber
      ensures number == old(recvNextSequenceNumber)
      ensures recvNextSequenceNumber == Wrap16(old(recvNextSequenceNumber) + 1)
    {
      number := recvNextSequenceNumber;
      recvNextSequenceNumber := Wrap16(recvNextSequenceNumber + 1);
    }

    method GenerateNextFecSequenceNumber(isFec: bool, number: uint16) returns (next: uint16)
      modifies this`currentFecSeqNumber, this`fecSendCount
      ensures isFec ==> next == Wrap16(old(currentFecSeqNumber) + 1)
      ensures isFec ==> currentFecSeqNumber == old(currentFecSeqNumber) && fecSendCount == Wrap16(old(fecSendCount) + 1)
      ensures !isFec ==> next == currentFecSeqNumber == Wrap16(number + old(fecSendCount))
      ensures !isFec ==> fecSendCount == old(fecSendCount)
    {
      if isFec {
        fecSendCount := Wrap16(fecSendCount + 1);
        next := Wrap16(currentFecSeqNumber + 1);
      } else {
        currentFecSeqNumber := Wrap16(number + fecSendCount);
        next := currentFecSeqNumber;
      }
    }

    /** The loop that sends the packets of the producer. */
    method SendFecPackets(start: uint16, count: uint16)
      modifies this`sent
      ensures sent == old(sent) + Consecutive(start, count)
    {
      for k := 0 to count
        invariant sent == old(sent) + Consecutive(start, k)
      {
        sent := sent + [Wrap16(start + k)];
      }
    }

    /** numFecPackets is what the producer has available after the media packet. */
    method SendPacketAsFec(numFecPackets: uint16)
      modifies this
      ensures Counts() == Send(old(Counts()), numFecPackets).0
      ensures sent == old(sent) + Send(old(Counts()), numFecPackets).1
    {
      hide Consecutive;
      var number := ResetSequenceNumberNotContainFec();
      var media := GenerateNextFecSequenceNumber(false, number);
      sent := sent + [media];
      if numFecPackets > 0 {
        var start := GenerateNextFecSequenceNumber(true, 0);
        SendFecPackets(start, numFecPackets);
        fecSendCount := Wrap16(fecSendCount + (numFecPackets - 1));
      }
    }
  }
}
